// Exact schedulability: with ticks on time, an honest server and no triggers, when each
// credit is redeemed, and exactly which sets of credits are all redeemed before expiry.

module Schedule {
  import opened Models
  import opened CreditSelection
  import opened Retry
  import opened Machine
  import opened Account
  import opened Progress

  /** A store of credits the theorems quantify over: distinct ids, in any order; besides the
      credits to redeem it may hold unavailable ones and ones that never expire. */
  ghost predicate Store(store: seq<Credit>) {
    && (forall c :: c in store ==> c.expiresAt >= 0 && (Queued()(c) ==> c.id != ""))
    && DistinctIds(store)
  }

  ghost predicate DistinctIds(s: seq<Credit>) {
    forall i, j :: 0 <= i < j < |s| ==> s[i].id != s[j].id
  }

  /** The credits worth redeeming: available and expiring. */
  function Queued(): Credit -> bool {
    (c: Credit) => c.status == "available" && c.expiresAt != NO_TIME
  }

  function Queue(store: seq<Credit>): seq<Credit> { StableSort(Filter(Queued(), store)) }

  /** The credits no POST has named yet. */
  function Unspent(posts: seq<Post>): Credit -> bool {
    (c: Credit) => forall x :: x in posts ==> x.target != c.id
  }

  /** The answers of a server that lists what is left and redeems. */
  ghost predicate Honest(a: Account, e: Env, store: seq<Credit>) {
    && e.list.Some? && e.list.value.credits == Filter(Unspent(a.posts), store)
    && e.usage.Some?
    && e.consume == Response("reset")
  }

  /** A tick on time, answered by such a server. */
  ghost predicate OnTime(a: Account, e: Env, store: seq<Credit>) {
    e.now == e.later == a.fsm.nextWake && Honest(a, e, store)
  }

  /** Always true: names the index of a tick, so that a run is used one tick at a time. */
  predicate TickIndex(i: nat) { true }

  /** An infinite run of one account from its creation: its states, and the answers of its
      ticks, which nothing but ticks interrupts. */
  ghost predicate Ticking(p: Settings, start: Time, run: nat -> Account, es: nat -> Env) {
    && run(0) == Fresh(start)
    && forall i: nat {:trigger TickIndex(i)} :: TickIndex(i) ==> run(i + 1) == TickAndSync(p, run(i), es(i))
  }

  /** ... in which every tick is on time. */
  ghost predicate IdealRun(p: Settings, start: Time, run: nat -> Account, es: nat -> Env, store: seq<Credit>) {
    && Ticking(p, start, run, es)
    && forall i: nat {:trigger TickIndex(i)} :: TickIndex(i) ==> OnTime(run(i), es(i), store)
  }

  lemma OnTimeAt(p: Settings, start: Time, run: nat -> Account, es: nat -> Env, store: seq<Credit>, i: nat)
    requires IdealRun(p, start, run, es, store)
    ensures OnTime(run(i), es(i), store) && run(i + 1) == TickAndSync(p, run(i), es(i))
  {
    assert TickIndex(i);
  }

  function Max(a: int, b: int): int { if a < b then b else a }

  /** One full cycle costs the verification delay and one refresh interval. */
  function Cycle(p: Settings): int { VERIFY_DELAY + p.refreshInterval }

  /** When the account is free to look for credit k ... */
  function FreeAt(p: Settings, start: Time, cs: seq<Credit>, k: nat): Time
    requires k <= |cs|
    decreases k, 0
  {
    if k == 0 then start else PostAt(p, start, cs, k - 1) + Cycle(p)
  }

  /** ... and when it redeems it, if it does. */
  function PostAt(p: Settings, start: Time, cs: seq<Credit>, k: nat): Time
    requires k < |cs|
    decreases k, 1
  {
    Max(TriggerTime(p, cs[k]), FreeAt(p, start, cs, k))
  }

  ghost predicate Redeemed(p: Settings, start: Time, cs: seq<Credit>, k: nat, posts: seq<Post>)
    requires k <= |cs|
  {
    |posts| == k && forall j :: 0 <= j < k ==> posts[j].target == cs[j].id && posts[j].at == PostAt(p, start, cs, j)
  }

  /** Patrolling for credit k, next look at w. */
  ghost predicate Patrolling(p: Settings, start: Time, cs: seq<Credit>, k: nat, a: Account, w: Time)
    requires k <= |cs|
  {
    && a.fsm.state.Idle? && a.fsm.nextWake == w && !a.fsm.manual
    && Redeemed(p, start, cs, k, a.posts)
    && FreeAt(p, start, cs, k) <= w
    && (w == FreeAt(p, start, cs, k) || (k < |cs| && w < TriggerTime(p, cs[k])))
  }

  // ---------- what a listing selects ----------

  lemma NoneKept(q: Credit -> bool, s: seq<Credit>)
    requires forall c :: c in s ==> !q(c)
    ensures Filter(q, s) == []
  {
    FilterMembers(q, s);
    var f := Filter(q, s);
    if c :| c in f { assert false; }
  }

  lemma {:induction false} FirstKept(q: Credit -> bool, s: seq<Credit>, k: nat)
    requires k < |s| && q(s[k]) && forall j :: 0 <= j < k ==> !q(s[j])
    ensures Filter(q, s) != [] && Filter(q, s)[0] == s[k]
    decreases |s|
  {
    if k == |s| - 1 {
      NoneKept(q, s[..k]);
    } else {
      FirstKept(q, s[..|s| - 1], k);
    }
  }

  /** What the machine sees: the unspent, unexpired credits in expiry order. */
  lemma SeenInOrder(store: seq<Credit>, posts: seq<Post>, now: Time)
    ensures Select(Filter(Unspent(posts), store), now)
         == Filter(SelectableAt(now), Filter(Unspent(posts), StableSort(store)))
  {
    FilterStableSort(Unspent(posts), store);
    FilterStableSort(SelectableAt(now), Filter(Unspent(posts), store));
  }

  lemma {:induction false} DistinctOccurOnce(s: seq<Credit>)
    requires DistinctIds(s)
    ensures forall c :: multiset(s)[c] <= 1
  {
    if s == [] {
    } else {
      var init, last := s[..|s| - 1], s[|s| - 1];
      DistinctOccurOnce(init);
      assert s == init + [last];
      assert last !in init;
    }
  }

  lemma OccurOnceDistinct(s: seq<Credit>, i: nat, j: nat)
    requires i < j < |s| && multiset(s)[s[i]] <= 1
    ensures s[i] != s[j]
  {
    assert s == s[..j] + s[j..];
    assert s[i] in s[..j] && s[j] in s[j..];
  }

  lemma {:induction false} FilterSwap(q: Credit -> bool, r: Credit -> bool, s: seq<Credit>)
    ensures Filter(r, Filter(q, s)) == Filter(q, Filter(r, s))
  {
    if s == [] {
    } else {
      var init, last := s[..|s| - 1], s[|s| - 1];
      FilterSwap(q, r, init);
      var fq, fr := Filter(q, init), Filter(r, init);
      assert (fq + [last])[..|fq|] == fq && (fr + [last])[..|fr|] == fr;
    }
  }

  lemma {:induction false} FilterKeepsDistinct(q: Credit -> bool, s: seq<Credit>)
    requires DistinctIds(s)
    ensures DistinctIds(Filter(q, s))
  {
    if s == [] {
    } else {
      var init, last := s[..|s| - 1], s[|s| - 1];
      var f := Filter(q, init);
      FilterKeepsDistinct(q, init);
      FilterMembers(q, init);
      forall i | 0 <= i < |f| ensures f[i].id != last.id {
        assert f[i] in f && f[i] in init;
        var m :| 0 <= m < |init| && init[m] == f[i];
        assert s[m] == init[m];
      }
    }
  }

  lemma SortKeepsDistinct(s: seq<Credit>)
    requires DistinctIds(s)
    ensures DistinctIds(StableSort(s)) && forall c :: c in StableSort(s) <==> c in s
  {
    var t := StableSort(s);
    StableSortPermutes(s);
    forall c ensures c in t <==> c in s {
      assert c in multiset(t) <==> c in multiset(s);
    }
    DistinctOccurOnce(s);
    forall i, j | 0 <= i < j < |t| ensures t[i].id != t[j].id {
      OccurOnceDistinct(t, i, j);
      assert t[i] in s && t[j] in s;
    }
  }

  lemma QueueOfStore(store: seq<Credit>)
    requires Store(store)
    ensures Store(Queue(store))
    ensures forall c :: c in Queue(store) <==> c in store && Queued()(c)
    ensures forall c :: c in Queue(store) ==> c.status == "available" && c.expiresAt > 0 && c.id != ""
  {
    FilterKeepsDistinct(Queued(), store);
    SortKeepsDistinct(Filter(Queued(), store));
    FilterMembers(Queued(), store);
  }

  /** What the machine sees, but for the never-expiring, is the rest of the queue. */
  lemma SeenQueue(store: seq<Credit>, posts: seq<Post>, now: Time)
    ensures Filter(Queued(), Select(Filter(Unspent(posts), store), now))
         == Filter(Both(Unspent(posts), SelectableAt(now)), Queue(store))
  {
    var full := StableSort(store);
    SeenInOrder(store, posts, now);
    FilterSwap(SelectableAt(now), Queued(), Filter(Unspent(posts), full));
    FilterSwap(Unspent(posts), Queued(), full);
    FilterStableSort(Queued(), store);
    FilterBoth(Unspent(posts), SelectableAt(now), Queue(store));
  }

  lemma FirstIsQueued(seen: seq<Credit>, c: Credit)
    requires Sorted(seen) && c in seen && Queued()(c) && forall d :: d in seen ==> d.status == "available"
    ensures seen != [] && Filter(Queued(), seen) != [] && Filter(Queued(), seen)[0] == seen[0]
  {
    assert seen[0] in seen;
    assert c == seen[0] || !Before(c, seen[0]) by {
      var m :| 0 <= m < |seen| && seen[m] == c;
    }
    FirstKept(Queued(), seen, 0);
  }

  /** With credits 0..k-1 redeemed and credit k not yet expired, credit k is selected. */
  lemma Sighted(p: Settings, start: Time, store: seq<Credit>, k: nat, posts: seq<Post>, now: Time)
    requires Store(store) && k < |Queue(store)|
    requires Redeemed(p, start, Queue(store), k, posts) && now < Queue(store)[k].expiresAt
    ensures var seen := Select(Filter(Unspent(posts), store), now);
      seen != [] && seen[0] == Queue(store)[k]
  {
    var cs, seen := Queue(store), Select(Filter(Unspent(posts), store), now);
    QueueOfStore(store);
    assert cs[k] in cs;
    SeenQueue(store, posts, now);
    assert Unspent(posts)(cs[k]) && SelectableAt(now)(cs[k]);
    forall j | 0 <= j < k ensures !Both(Unspent(posts), SelectableAt(now))(cs[j]) {
      assert posts[j] in posts;
    }
    FirstKept(Both(Unspent(posts), SelectableAt(now)), cs, k);
    FilterMembers(Unspent(posts), store);
    SelectIsSoonestFirst(Filter(Unspent(posts), store), now);
    FirstIsQueued(seen, cs[k]);
  }
}
