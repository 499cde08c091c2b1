// Attempt immutability: whatever triggers, failures and panics a run contains, its POSTs
// fall into contiguous blocks, one per minted key.

module Attempts {
  import opened Models
  import opened Retry
  import opened Machine
  import opened Account

  lemma {:induction false} RunKeepsAttempted(p: Settings, start: Time, acts: seq<Action>)
    requires start > 0 && p.refreshInterval > 0 && Legal(p, Fresh(start), acts)
    ensures Attempted(Run(p, Fresh(start), acts))
  {
    if acts == [] {
    } else {
      RunKeepsAttempted(p, start, acts[..|acts| - 1]);
      ApplyKeepsAttempted(p, Run(p, Fresh(start), acts[..|acts| - 1]), acts[|acts| - 1]);
    }
  }

  /** Two POSTs with one key: same target, everything between them has that key too, and
      the call numbers count up by one. */
  ghost predicate SameBlock(posts: seq<Post>, i: nat, j: nat)
    requires i <= j < |posts|
  {
    && posts[i].target == posts[j].target
    && posts[j].nth - posts[i].nth == j - i
    && forall k :: i <= k <= j ==> posts[k].redeemId == posts[i].redeemId
  }

  lemma {:induction false} BlockOf(posts: seq<Post>, i: nat, j: nat)
    requires forall k :: 0 <= k < |posts| ==> Linked(posts, k)
    requires i <= j < |posts| && posts[i].redeemId == posts[j].redeemId
    ensures SameBlock(posts, i, j)
  {
    if i >= j {
    } else {
      assert Linked(posts, j);
      BlockOf(posts, i, j - 1);
    }
  }

  lemma LinkedBlocks(posts: seq<Post>, i: nat, j: nat)
    requires forall k :: 0 <= k < |posts| ==> Linked(posts, k)
    requires i < j < |posts| && posts[i].redeemId == posts[j].redeemId
    ensures SameBlock(posts, i, j) && j - i <= MAX_RETRIES && Classify(posts[i].outcome) == TryAgain
  {
    BlockOf(posts, i, j);
    assert Linked(posts, i) && Linked(posts, j);
    assert Linked(posts, i + 1) && posts[i + 1].redeemId == posts[i].redeemId;
  }

  lemma AllBlocks(posts: seq<Post>)
    requires forall k :: 0 <= k < |posts| ==> Linked(posts, k)
    ensures forall i :: 0 <= i < |posts| ==> posts[i].target != ""
    ensures forall i, j :: 0 <= i < j < |posts| && posts[i].redeemId == posts[j].redeemId ==>
      SameBlock(posts, i, j) && j - i <= MAX_RETRIES && Classify(posts[i].outcome) == TryAgain
  {
    forall i | 0 <= i < |posts| ensures posts[i].target != "" {
      assert Linked(posts, i);
    }
    forall i, j | 0 <= i < j < |posts| && posts[i].redeemId == posts[j].redeemId
      ensures SameBlock(posts, i, j) && j - i <= MAX_RETRIES && Classify(posts[i].outcome) == TryAgain
    {
      LinkedBlocks(posts, i, j);
    }
  }

  ghost predicate Blocks(posts: seq<Post>, minted: map<string, string>) {
    && (forall i :: 0 <= i < |posts| ==>
          && posts[i].target != ""
          && posts[i].redeemId in minted && minted[posts[i].redeemId] == posts[i].target)
    && (forall i, j :: 0 <= i < j < |posts| && posts[i].redeemId == posts[j].redeemId ==>
          SameBlock(posts, i, j) && j - i <= MAX_RETRIES && Classify(posts[i].outcome) == TryAgain)
  }

  lemma TracedBlocks(a: Account)
    requires Attempted(a)
    ensures Blocks(a.posts, a.minted)
  {
    AllBlocks(a.posts);
  }

  /** The POST trace of every legal run: targets are never empty; POSTs that share a key
      are consecutive, share the target the key was minted for, and number at most six;
      every POST but a block's last was answered by a transient failure. */
  lemma AttemptsAreImmutable(p: Settings, start: Time, acts: seq<Action>)
    requires start > 0 && p.refreshInterval > 0 && Legal(p, Fresh(start), acts)
    ensures var a := Run(p, Fresh(start), acts); Blocks(a.posts, a.minted)
  {
    RunKeepsAttempted(p, start, acts);
    TracedBlocks(Run(p, Fresh(start), acts));
  }

  /** b's history continues a's. */
  ghost predicate Continues(a: Account, b: Account) {
    && a.posts <= b.posts
    && a.verified <= b.verified
    && a.delivered <= b.delivered
    && forall id :: id in a.minted ==> id in b.minted && b.minted[id] == a.minted[id]
  }

  lemma ApplyContinues(p: Settings, a: Account, act: Action)
    requires Enabled(a, act)
    ensures Continues(a, Apply(p, a, act))
  {
  }

  /** Nothing that happens later changes what was minted, posted, verified or delivered. */
  lemma {:induction false} HistoryOnlyGrows(p: Settings, a: Account, acts: seq<Action>)
    requires Legal(p, a, acts)
    ensures Continues(a, Run(p, a, acts))
  {
    if acts == [] {
    } else {
      var init := acts[..|acts| - 1];
      HistoryOnlyGrows(p, a, init);
      ApplyContinues(p, Run(p, a, init), acts[|acts| - 1]);
      ContinuesOn(a, Run(p, a, init), Run(p, a, acts));
    }
  }

  lemma ContinuesOn(a: Account, b: Account, c: Account)
    requires Continues(a, b) && Continues(b, c)
    ensures Continues(a, c)
  {
  }

  /** No attempt in flight has been verified, and none was verified twice. */
  ghost predicate VerifiedOnce(a: Account) {
    && (a.fsm.state.Resetting? || a.fsm.state.Verifying? ==>
          forall v :: v in a.verified ==> v.redeemId != a.fsm.attempt.redeemId)
    && (forall v :: v in a.verified ==> v.redeemId in a.minted)
    && (forall i, j :: 0 <= i < j < |a.verified| ==> a.verified[i].redeemId != a.verified[j].redeemId)
  }

  lemma CalledKeepsVerifiedOnce(p: Settings, a: Account, e: Env, g: Fsm, phase: Phase)
    requires Sound(a) && VerifiedOnce(a) && Due(a, e) && Edge(a.fsm, e, g)
    ensures VerifiedOnce(Called(a, e, g, phase).(verified := VerifiedAfter(p, a, e)))
  {
  }

  lemma ApplyKeepsVerifiedOnce(p: Settings, a: Account, act: Action)
    requires Sound(a) && VerifiedOnce(a) && Enabled(a, act)
    ensures VerifiedOnce(Apply(p, a, act))
  {
    match act
    case Tick(e) =>
      OutcomeIsEdge(p, a, e, StepAndSettle(p, a.fsm, e).fsm);
      CalledKeepsVerifiedOnce(p, a, e, StepAndSettle(p, a.fsm, e).fsm, Unsynced);
    case TickPanic(e, InLog) =>
      OutcomeIsEdge(p, a, e, PanickedInLog(p, a.fsm, e));
      CalledKeepsVerifiedOnce(p, a, e, PanickedInLog(p, a.fsm, e), Recovering);
    case _ =>
  }

  /** In every run each key is verified at most once. */
  lemma {:induction false} RunVerifiesOnce(p: Settings, start: Time, acts: seq<Action>)
    requires start > 0 && p.refreshInterval > 0 && Legal(p, Fresh(start), acts)
    ensures VerifiedOnce(Run(p, Fresh(start), acts))
  {
    if acts == [] {
    } else {
      RunVerifiesOnce(p, start, acts[..|acts| - 1]);
      RunKeepsAttempted(p, start, acts[..|acts| - 1]);
      ApplyKeepsVerifiedOnce(p, Run(p, Fresh(start), acts[..|acts| - 1]), acts[|acts| - 1]);
    }
  }
}
