// One account under everything that can happen to it: ticks, panics inside ticks,
// credential failures, manual resets and checks, in any order.  The history fields
// (minted, origin, posts, pinned, verified, delivered) only record; no action reads them.

module Account {
  import opened Models
  import opened Retry
  import opened Machine

  /** One POST /consume whose call returned; nth counts the calls of its attempt from 1. */
  datatype Post = Post(at: Time, redeemId: string, target: string, nth: nat, outcome: ConsumeOutcome)

  /** One verification whose two fetches both succeeded, with the key of its attempt, the
      first two legs of the triple check, and what its tick was answered; a MISMATCH is a
      verification missing one of those legs. */
  datatype Verification = Verification(redeemId: string, gone: bool, down1: bool, record: ResetRecord, seen: Env) {
    predicate Mismatch() { !(gone && down1) }
  }

  /** Where the worker's loop stands with this account. */
  datatype Phase = Ready | Unsynced | Recovering

  /** origin: what the tick that minted each key was answered. */
  datatype Account = Account(
    fsm: Fsm, clock: Time, phase: Phase,
    minted: map<string, string>, origin: map<string, Env>, posts: seq<Post>, pinned: string,
    verified: seq<Verification>, delivered: seq<ResetRecord>)

  /** InCall: a client call panicked.  InLog: the log callback panicked, after the calls
      returned and the step's own fields were written, before the settle. */
  datatype PanicPoint = InCall | InLog

  datatype Action =
    | Tick(e: Env)
    | TickPanic(e: Env, point: PanicPoint)
    | Sync
    | SyncPanic(taken: bool)
    | Recover(now: Time)
    | LoadFailed(now: Time)
    | LoadPanic(now: Time)
    | Force(now: Time)
    | CheckWrite(wake: Time, now: Time)

  function Fresh(now: Time): Account {
    Account(SetNextWake(FRESH, now), now, Ready, map[], map[], [], "", [], [])
  }

  /** The fields as a panicking log callback leaves them.  The verification step logs
      before it stores its record. */
  function PanickedInLog(p: Settings, f: Fsm, e: Env): Fsm {
    Step(p, f, e).fsm.(pending := f.pending)
  }

  function Called(a: Account, e: Env, g: Fsm, phase: Phase): Account {
    var f := a.fsm;
    a.(fsm := g, clock := e.later, phase := phase,
       minted := if f.state.Confirming? && g.state.Resetting?
                 then a.minted[g.attempt.redeemId := g.attempt.target] else a.minted,
       origin := if f.state.Confirming? && g.state.Resetting? then a.origin[g.attempt.redeemId := e] else a.origin,
       posts := if f.state.Resetting?
                then a.posts + [Post(e.now, f.attempt.redeemId, f.attempt.target, f.attempt.attempt + 1, e.consume)]
                else a.posts,
       pinned := if f.state.Idle? && g.state.Armed? then g.scheduled else a.pinned)
  }

  function PendingSeq(f: Fsm): seq<ResetRecord> {
    if f.pending.Some? then [f.pending.value] else []
  }

  function Take(a: Account): Account {
    a.(fsm := a.fsm.(pending := None), delivered := a.delivered + PendingSeq(a.fsm))
  }

  predicate Fetches(f: Fsm, e: Env) {
    f.state.Verifying? && e.list.Some? && e.usage.Some?
  }

  function Verify(p: Settings, f: Fsm, e: Env): Verification
    requires Fetches(f, e)
  {
    Verification(f.attempt.redeemId, TargetGone(f, e.list.value), CountDown1(f, e.list.value), Record(p, f, e), e)
  }

  /** A verification has happened once both fetches have succeeded, whatever the log call
      that reports it does. */
  function VerifiedAfter(p: Settings, a: Account, e: Env): seq<Verification> {
    if Fetches(a.fsm, e) then a.verified + [Verify(p, a.fsm, e)] else a.verified
  }

  function Apply(p: Settings, a: Account, act: Action): Account {
    match act
    case Tick(e) =>
      Called(a, e, StepAndSettle(p, a.fsm, e).fsm, Unsynced).(verified := VerifiedAfter(p, a, e))
    case TickPanic(e, InCall) => a.(clock := e.later, phase := Recovering)
    case TickPanic(e, InLog) =>
      Called(a, e, PanickedInLog(p, a.fsm, e), Recovering).(verified := VerifiedAfter(p, a, e))
    case Sync => Take(a).(phase := Ready)
    case SyncPanic(taken) => (if taken then Take(a) else a).(phase := Recovering)
    case Recover(now) =>
      a.(fsm := SetNextWake(a.fsm, now + p.refreshInterval), clock := now, phase := Ready)
    case LoadFailed(now) => a.(fsm := SetNextWake(a.fsm, now + CREDENTIAL_RETRY), clock := now)
    case LoadPanic(now) => a.(clock := now, phase := Recovering)
    case Force(now) => a.(fsm := ForceConfirm(a.fsm, now), clock := now)
    case CheckWrite(wake, now) => a.(fsm := SetNextWake(a.fsm, wake), clock := now)
  }

  /** A tick runs when its wake has come; UUIDs are never repeated; clocks do not go back. */
  predicate Due(a: Account, e: Env) {
    a.phase.Ready? && a.fsm.nextWake <= e.now && a.clock <= e.now <= e.later
    && e.freshId != "" && e.freshId !in a.minted
  }

  /** When the worker and the management handlers can perform each action; that the worker
      never performs another one is proved in module Worker. */
  predicate Enabled(a: Account, act: Action) {
    match act
    case Tick(e) => Due(a, e)
    case TickPanic(e, _) => Due(a, e)
    case Sync => a.phase.Unsynced?
    case SyncPanic(_) => a.phase.Unsynced?
    case Recover(now) => a.phase.Recovering? && a.clock <= now
    case LoadFailed(now) => a.phase.Ready? && a.fsm.nextWake <= now && a.clock <= now
    case LoadPanic(now) => a.phase.Ready? && a.fsm.nextWake <= now && a.clock <= now
    case Force(now) => a.clock <= now
    case CheckWrite(wake, now) =>
      (a.fsm.state.Idle? || a.fsm.state.Armed?) && 0 < wake <= now && a.clock <= now
  }

  function Run(p: Settings, a: Account, acts: seq<Action>): Account {
    if acts == [] then a else Apply(p, Run(p, a, acts[..|acts| - 1]), acts[|acts| - 1])
  }

  /** acts could happen to a, one after the other. */
  predicate Legal(p: Settings, a: Account, acts: seq<Action>) {
    acts == [] ||
    (Legal(p, a, acts[..|acts| - 1]) && Enabled(Run(p, a, acts[..|acts| - 1]), acts[|acts| - 1]))
  }

  lemma RunSnoc(p: Settings, a: Account, acts: seq<Action>, act: Action)
    ensures Run(p, a, acts + [act]) == Apply(p, Run(p, a, acts), act)
    ensures Legal(p, a, acts + [act]) <==> Legal(p, a, acts) && Enabled(Run(p, a, acts), act)
  {
    assert (acts + [act])[..|acts|] == acts;
  }

  // ---------- what every action keeps ----------

  /** No wake is ever lost, and the current attempt is complete and remembered. */
  ghost predicate Sound(a: Account) {
    && a.clock > 0 && a.fsm.nextWake > 0
    && (a.fsm.state.Resetting? || a.fsm.state.Verifying? ==>
          && a.fsm.attempt.target != ""
          && a.fsm.attempt.redeemId in a.minted
          && a.minted[a.fsm.attempt.redeemId] == a.fsm.attempt.target)
  }

  /** Either the first POST of a new key, or the next one of the same key and target after
      a transient failure. */
  ghost predicate Linked(posts: seq<Post>, i: nat)
    requires i < |posts|
  {
    && posts[i].target != ""
    && 1 <= posts[i].nth <= MAX_RETRIES + 1
    && if posts[i].nth == 1 then
         forall j :: 0 <= j < i ==> posts[j].redeemId != posts[i].redeemId
       else
         && i > 0
         && posts[i - 1].redeemId == posts[i].redeemId
         && posts[i - 1].target == posts[i].target
         && posts[i - 1].nth + 1 == posts[i].nth
         && Classify(posts[i - 1].outcome) == TryAgain
  }

  ghost predicate Traced(a: Account) {
    && (forall i :: 0 <= i < |a.posts| ==> Linked(a.posts, i))
    && (forall i :: 0 <= i < |a.posts| ==>
          a.posts[i].redeemId in a.minted && a.minted[a.posts[i].redeemId] == a.posts[i].target)
  }

  /** How the fields in flight relate to the last POST. */
  ghost predicate InFlight(a: Account) {
    var t := a.fsm.attempt;
    && (a.fsm.state.Resetting? ==>
          && t.attempt <= MAX_RETRIES
          && (t.attempt == 0 ==> forall i :: 0 <= i < |a.posts| ==> a.posts[i].redeemId != t.redeemId)
          && (t.attempt > 0 ==>
                && a.posts != []
                && var last := a.posts[|a.posts| - 1];
                && last.redeemId == t.redeemId && last.target == t.target
                && last.nth == t.attempt && Classify(last.outcome) == TryAgain
                && t.nextRetryAt == last.at + Backoff(t.attempt)))
    && (a.fsm.state.Verifying? ==>
          && a.posts != []
          && var last := a.posts[|a.posts| - 1];
          && last.redeemId == t.redeemId && last.target == t.target
          && Classify(last.outcome) == Success
          && a.fsm.verifyDue == last.at + VERIFY_DELAY)
  }

  ghost predicate Attempted(a: Account) {
    Sound(a) && Traced(a) && InFlight(a)
  }

  lemma LinkedExtends(posts: seq<Post>, x: Post)
    requires forall i :: 0 <= i < |posts| ==> Linked(posts, i)
    ensures forall i :: 0 <= i < |posts| ==> Linked(posts + [x], i)
  {
    forall i | 0 <= i < |posts| ensures Linked(posts + [x], i) {
      assert Linked(posts, i);
    }
  }

  /** g is what a's fields are after a tick at e, completed or cut short in its log call. */
  ghost predicate Outcome(p: Settings, a: Account, e: Env, g: Fsm) {
    g == StepAndSettle(p, a.fsm, e).fsm || g == PanickedInLog(p, a.fsm, e)
  }

  /** How an attempt in flight comes about: confirmed with a new key, retried, or accepted. */
  ghost predicate Edge(f: Fsm, e: Env, g: Fsm) {
    && (g.state.Resetting? && !f.state.Resetting? ==>
          f.state.Confirming? && g.attempt.redeemId == e.freshId && g.attempt.attempt == 0)
    && (g.state.Resetting? && f.state.Resetting? ==>
          var n := f.attempt.attempt + 1;
          && n <= MAX_RETRIES && Classify(e.consume) == TryAgain
          && g.attempt == f.attempt.(attempt := n, nextRetryAt := e.now + Backoff(n)))
    && (g.state.Verifying? ==>
          && f.state.Resetting? && Classify(e.consume) == Success
          && g.attempt == f.attempt && g.verifyDue == e.now + VERIFY_DELAY)
  }

  lemma OutcomeIsEdge(p: Settings, a: Account, e: Env, g: Fsm)
    requires Outcome(p, a, e, g)
    ensures Edge(a.fsm, e, g)
  {
  }

  lemma CalledKeepsTraced(a: Account, e: Env, g: Fsm, phase: Phase)
    requires Attempted(a) && Due(a, e) && Edge(a.fsm, e, g)
    ensures Traced(Called(a, e, g, phase))
  {
    if a.fsm.state.Resetting? {
      var t := a.fsm.attempt;
      var x := Post(e.now, t.redeemId, t.target, t.attempt + 1, e.consume);
      LinkedExtends(a.posts, x);
      assert Linked(a.posts + [x], |a.posts|);
    }
  }

  lemma CalledKeepsSound(p: Settings, a: Account, e: Env, g: Fsm, phase: Phase)
    requires Sound(a) && Due(a, e) && p.refreshInterval > 0 && Outcome(p, a, e, g)
    ensures Sound(Called(a, e, g, phase))
  {
  }

  lemma CalledKeepsInFlight(a: Account, e: Env, g: Fsm, phase: Phase)
    requires Attempted(a) && Due(a, e) && Edge(a.fsm, e, g)
    ensures InFlight(Called(a, e, g, phase))
  {
    var b := Called(a, e, g, phase);
    if a.fsm.state.Confirming? {
      assert b.posts == a.posts;
      forall i | 0 <= i < |a.posts| ensures a.posts[i].redeemId != e.freshId {
      }
    }
  }

  lemma CalledKeepsAttempted(p: Settings, a: Account, e: Env, g: Fsm, phase: Phase)
    requires Attempted(a) && Due(a, e) && p.refreshInterval > 0 && Outcome(p, a, e, g)
    ensures Attempted(Called(a, e, g, phase))
  {
    CalledKeepsSound(p, a, e, g, phase);
    OutcomeIsEdge(p, a, e, g);
    CalledKeepsTraced(a, e, g, phase);
    CalledKeepsInFlight(a, e, g, phase);
  }

  lemma ApplyKeepsAttempted(p: Settings, a: Account, act: Action)
    requires Attempted(a) && Enabled(a, act) && p.refreshInterval > 0
    ensures Attempted(Apply(p, a, act))
  {
    match act
    case Tick(e) =>
      CalledKeepsAttempted(p, a, e, StepAndSettle(p, a.fsm, e).fsm, Unsynced);
    case TickPanic(e, InLog) =>
      CalledKeepsAttempted(p, a, e, PanickedInLog(p, a.fsm, e), Recovering);
    case _ =>
  }
}
