// Which credit is redeemed first: drop the unavailable and the expired ones, then
// sort by expiry, stably, with never-expiring credits last.

module CreditSelection {
  import opened Models

  predicate Selectable(c: Credit, now: Time) {
    c.status == "available" && (c.expiresAt == NO_TIME || c.expiresAt > now)
  }

  /** The comparison handed to the library's stable sort. */
  predicate Before(a: Credit, b: Credit) {
    a.expiresAt != NO_TIME && (b.expiresAt == NO_TIME || a.expiresAt < b.expiresAt)
  }

  function SelectableAt(now: Time): Credit -> bool {
    (c: Credit) => Selectable(c, now)
  }

  function TiedWith(d: Credit): Credit -> bool {
    (c: Credit) => c.expiresAt == d.expiresAt
  }

  function Filter(p: Credit -> bool, s: seq<Credit>): seq<Credit> {
    if s == [] then []
    else
      var rest := Filter(p, s[..|s| - 1]);
      if p(s[|s| - 1]) then rest + [s[|s| - 1]] else rest
  }

  ghost predicate Sorted(s: seq<Credit>) {
    forall i, j :: 0 <= i < j < |s| ==> !Before(s[j], s[i])
  }

  /** What "stably sorted" means, with no algorithm in it: ordered, and credits that
      tie keep exactly the order (and number) they had. */
  ghost predicate IsStableSortOf(r: seq<Credit>, s: seq<Credit>) {
    Sorted(r) && forall d :: Filter(TiedWith(d), r) == Filter(TiedWith(d), s)
  }

  function Insert(s: seq<Credit>, x: Credit): seq<Credit> {
    if |s| > 0 && Before(x, s[|s| - 1]) then Insert(s[..|s| - 1], x) + [s[|s| - 1]]
    else s + [x]
  }

  function StableSort(s: seq<Credit>): seq<Credit> {
    if s == [] then [] else Insert(StableSort(s[..|s| - 1]), s[|s| - 1])
  }

  /** availableCreditsSorted as a function of its inputs. */
  function Select(credits: seq<Credit>, now: Time): seq<Credit> {
    StableSort(Filter(SelectableAt(now), credits))
  }

  // ---------- the sort ----------

  lemma {:induction false} InsertPermutes(s: seq<Credit>, x: Credit)
    ensures multiset(Insert(s, x)) == multiset(s) + multiset{x}
  {
    if |s| > 0 && Before(x, s[|s| - 1]) {
      InsertPermutes(s[..|s| - 1], x);
      assert s == s[..|s| - 1] + [s[|s| - 1]];
    }
  }

  lemma {:induction false} InsertMembers(s: seq<Credit>, x: Credit, c: Credit)
    ensures c in Insert(s, x) <==> c == x || c in s
  {
    InsertPermutes(s, x);
    assert c in multiset(Insert(s, x)) <==> c in multiset(s) || c == x;
  }

  lemma {:induction false} InsertSorts(s: seq<Credit>, x: Credit)
    requires Sorted(s)
    ensures Sorted(Insert(s, x))
  {
    if |s| > 0 && Before(x, s[|s| - 1]) {
      var init, last := s[..|s| - 1], s[|s| - 1];
      InsertSorts(init, x);
      forall k | 0 <= k < |Insert(init, x)| ensures !Before(last, Insert(init, x)[k]) {
        InsertMembers(init, x, Insert(init, x)[k]);
      }
    }
  }

  lemma {:induction false} FilterInsert(p: Credit -> bool, s: seq<Credit>, x: Credit)
    requires Sorted(s)
    ensures Filter(p, Insert(s, x)) == if p(x) then Insert(Filter(p, s), x) else Filter(p, s)
  {
    if |s| > 0 && Before(x, s[|s| - 1]) {
      var init, last := s[..|s| - 1], s[|s| - 1];
      FilterInsert(p, init, x);
      FilterSnoc(p, Insert(init, x), last);
      InsertBeforeLast(Filter(p, init), x, last);
    } else {
      FilterSnoc(p, s, x);
      var f := Filter(p, s);
      if f != [] {
        FilterMembers(p, s);
        assert f[|f| - 1] in s;
      }
    }
  }

  lemma InsertBeforeLast(s: seq<Credit>, x: Credit, last: Credit)
    requires Before(x, last)
    ensures Insert(s + [last], x) == Insert(s, x) + [last]
  {
    assert (s + [last])[..|s|] == s;
  }

  lemma FilterSnoc(q: Credit -> bool, s: seq<Credit>, x: Credit)
    ensures Filter(q, s + [x]) == if q(x) then Filter(q, s) + [x] else Filter(q, s)
  {
    assert (s + [x])[..|s|] == s;
  }

  lemma {:induction false} FilterMembers(p: Credit -> bool, s: seq<Credit>)
    ensures forall c :: c in Filter(p, s) <==> c in s && p(c)
  {
    if s == [] {
    } else {
      FilterMembers(p, s[..|s| - 1]);
      assert s == s[..|s| - 1] + [s[|s| - 1]];
    }
  }

  lemma {:induction false} StableSortIsSorted(s: seq<Credit>)
    ensures Sorted(StableSort(s))
  {
    if s == [] {
    } else {
      StableSortIsSorted(s[..|s| - 1]);
      InsertSorts(StableSort(s[..|s| - 1]), s[|s| - 1]);
    }
  }

  lemma SortSnoc(s: seq<Credit>, x: Credit)
    ensures StableSort(s + [x]) == Insert(StableSort(s), x)
  {
    assert (s + [x])[..|s|] == s;
  }

  lemma SnocPermutes(s: seq<Credit>, x: Credit)
    requires multiset(StableSort(s)) == multiset(s)
    ensures multiset(StableSort(s + [x])) == multiset(s + [x])
  {
    SortSnoc(s, x);
    InsertPermutes(StableSort(s), x);
  }

  /** The sort neither loses nor invents a credit. */
  lemma {:induction false} StableSortPermutes(s: seq<Credit>)
    ensures multiset(StableSort(s)) == multiset(s)
  {
    if s == [] {
    } else {
      var init, x := s[..|s| - 1], s[|s| - 1];
      StableSortPermutes(init);
      SnocPermutes(init, x);
      assert s == init + [x];
    }
  }

  /** Filtering commutes with the stable sort. */
  lemma {:induction false} FilterStableSort(p: Credit -> bool, s: seq<Credit>)
    ensures Filter(p, StableSort(s)) == StableSort(Filter(p, s))
  {
    if s == [] {
    } else {
      var init, x := s[..|s| - 1], s[|s| - 1];
      FilterStableSort(p, init);
      StableSortIsSorted(init);
      FilterInsert(p, StableSort(init), x);
      var f := Filter(p, init);
      assert (f + [x])[..|f|] == f;
    }
  }

  lemma {:induction false} StableSortOfTied(s: seq<Credit>, d: Credit)
    requires forall c :: c in s ==> c.expiresAt == d.expiresAt
    ensures StableSort(s) == s
  {
    if s == [] {
    } else {
      StableSortOfTied(s[..|s| - 1], d);
      assert s == s[..|s| - 1] + [s[|s| - 1]];
    }
  }

  lemma {:induction false} AllKept(q: Credit -> bool, s: seq<Credit>)
    requires forall c :: c in s ==> q(c)
    ensures Filter(q, s) == s
  {
    if s == [] {
    } else {
      AllKept(q, s[..|s| - 1]);
    }
  }

  lemma NeverExpiringAreSelected(credits: seq<Credit>, now: Time)
    requires credits != [] && forall c :: c in credits ==> c.status == "available" && c.expiresAt == NO_TIME
    ensures Select(credits, now) == credits
  {
    AllKept(SelectableAt(now), credits);
    StableSortOfTied(credits, credits[0]);
  }

  /** The stable sort is the stable sort ... */
  lemma StableSortIsStable(s: seq<Credit>)
    ensures IsStableSortOf(StableSort(s), s)
  {
    StableSortIsSorted(s);
    forall d ensures Filter(TiedWith(d), StableSort(s)) == Filter(TiedWith(d), s) {
      FilterStableSort(TiedWith(d), s);
      FilterMembers(TiedWith(d), s);
      StableSortOfTied(Filter(TiedWith(d), s), d);
    }
  }

  ghost predicate AgreeOnTies(r: seq<Credit>, s: seq<Credit>) {
    forall d :: Filter(TiedWith(d), r) == Filter(TiedWith(d), s)
  }

  lemma LastOfAgreeing(r: seq<Credit>, s: seq<Credit>)
    requires Sorted(r) && Sorted(s) && AgreeOnTies(r, s) && r != []
    ensures s != [] && r[|r| - 1] == s[|s| - 1]
  {
    var c := r[|r| - 1];
    var fr, fs := Filter(TiedWith(c), r), Filter(TiedWith(c), s);
    assert fr == fs && fr[|fr| - 1] == c;
    FilterMembers(TiedWith(c), s);
    assert c in fs;
    var d := s[|s| - 1];
    assert Filter(TiedWith(d), r) == Filter(TiedWith(d), s);
    assert d in Filter(TiedWith(d), s);
    FilterMembers(TiedWith(d), r);
    assert !Before(d, c) && !Before(c, d);
    assert TiedWith(c)(d);
  }

  lemma InitsAgree(r: seq<Credit>, s: seq<Credit>, d: Credit)
    requires AgreeOnTies(r, s) && r != [] && s != [] && r[|r| - 1] == s[|s| - 1]
    ensures Filter(TiedWith(d), r[..|r| - 1]) == Filter(TiedWith(d), s[..|s| - 1])
  {
    var r', s' := Filter(TiedWith(d), r[..|r| - 1]), Filter(TiedWith(d), s[..|s| - 1]);
    var c := r[|r| - 1];
    assert Filter(TiedWith(d), r) == Filter(TiedWith(d), s);
    assert (r' + [c])[..|r'|] == r' && (s' + [c])[..|s'|] == s';
  }

  /** ... and there is only one: two ordered lists that agree on every group of tied
      credits are the same list, so any correct library sort returns this one. */
  lemma {:induction false} StableSortIsUnique(r: seq<Credit>, s: seq<Credit>)
    requires Sorted(r) && Sorted(s)
    requires forall d :: Filter(TiedWith(d), r) == Filter(TiedWith(d), s)
    ensures r == s
  {
    if r == [] {
      if s != [] { LastOfAgreeing(s, r); }
    } else {
      LastOfAgreeing(r, s);
      forall d ensures Filter(TiedWith(d), r[..|r| - 1]) == Filter(TiedWith(d), s[..|s| - 1]) {
        InitsAgree(r, s, d);
      }
      StableSortIsUnique(r[..|r| - 1], s[..|s| - 1]);
      assert r == r[..|r| - 1] + [r[|r| - 1]] && s == s[..|s| - 1] + [s[|s| - 1]];
    }
  }

  lemma {:induction false} StableSortIdempotent(s: seq<Credit>)
    requires Sorted(s)
    ensures StableSort(s) == s
  {
    if s == [] {
    } else {
      StableSortIdempotent(s[..|s| - 1]);
      assert s == s[..|s| - 1] + [s[|s| - 1]];
    }
  }

  // ---------- the selection ----------

  lemma {:induction false} FilterTwice(t1: Time, t2: Time, s: seq<Credit>)
    ensures Filter(SelectableAt(t2), Filter(SelectableAt(t1), s))
         == Filter(SelectableAt(if t1 < t2 then t2 else t1), s)
  {
    if s == [] {
    } else {
      FilterTwice(t1, t2, s[..|s| - 1]);
      var f := Filter(SelectableAt(t1), s[..|s| - 1]);
      assert (f + [s[|s| - 1]])[..|f|] == f;
    }
  }

  /** The response parser selects at its own clock reading and the machine selects again
      at its own; together they select once, at the later reading. */
  lemma SelectTwice(credits: seq<Credit>, t1: Time, t2: Time)
    ensures Select(Select(credits, t1), t2) == Select(credits, if t1 < t2 then t2 else t1)
  {
    var once := Filter(SelectableAt(t1), credits);
    FilterStableSort(SelectableAt(t2), once);
    FilterTwice(t1, t2, credits);
    var both := Filter(SelectableAt(t2), once);
    StableSortIsSorted(both);
    StableSortIdempotent(StableSort(both));
  }

  /** The selection is the sorted rearrangement of exactly the selectable credits. */
  lemma SelectIsSoonestFirst(credits: seq<Credit>, now: Time)
    ensures Sorted(Select(credits, now))
    ensures forall c :: c in Select(credits, now) <==> c in credits && Selectable(c, now)
    ensures multiset(Select(credits, now)) == multiset(Filter(SelectableAt(now), credits))
  {
    var kept := Filter(SelectableAt(now), credits);
    StableSortIsSorted(kept);
    StableSortPermutes(kept);
    FilterMembers(SelectableAt(now), credits);
    forall c ensures c in Select(credits, now) <==> c in kept {
      assert c in multiset(Select(credits, now)) <==> c in multiset(kept);
    }
  }

  lemma {:induction false} FilterFront(q: Credit -> bool, x: Credit, s: seq<Credit>)
    ensures Filter(q, [x] + s) == (if q(x) then [x] else []) + Filter(q, s)
  {
    if s == [] {
      assert [x] + s == [x] && [x][..0] == [];
    } else {
      FilterFront(q, x, s[..|s| - 1]);
      assert ([x] + s)[..|s|] == [x] + s[..|s| - 1];
      assert [x] + s == [x] + s[..|s| - 1] + [s[|s| - 1]];
    }
  }

  function Both(q: Credit -> bool, r: Credit -> bool): Credit -> bool {
    (c: Credit) => q(c) && r(c)
  }

  lemma {:induction false} FilterBoth(q: Credit -> bool, r: Credit -> bool, s: seq<Credit>)
    ensures Filter(r, Filter(q, s)) == Filter(Both(q, r), s)
  {
    if s == [] {
    } else {
      FilterBoth(q, r, s[..|s| - 1]);
      var f := Filter(q, s[..|s| - 1]);
      assert (f + [s[|s| - 1]])[..|f|] == f;
    }
  }

  /** That is: the available credits that have not expired, by expiry, those that never expire
      last. */
  lemma SelectIsByExpiry(credits: seq<Credit>, now: Time)
    ensures forall c :: c in Select(credits, now) <==>
      c in credits && c.status == "available" && (c.expiresAt == 0 || now < c.expiresAt)
    ensures var r := Select(credits, now);
      forall i, j :: 0 <= i < j < |r| ==>
        r[j].expiresAt == 0 || (r[i].expiresAt != 0 && r[i].expiresAt <= r[j].expiresAt)
  {
    SelectIsSoonestFirst(credits, now);
  }

  // ---------- the head of the selection ----------

  lemma {:induction false} InsertAtFront(s: seq<Credit>, x: Credit)
    requires forall c :: c in s ==> Before(x, c)
    ensures Insert(s, x) == [x] + s
  {
    if s != [] {
      var init := s[..|s| - 1];
      InsertAtFront(init, x);
      assert s == init + [s[|s| - 1]];
    }
  }

  lemma {:induction false} InsertKeepsHead(s: seq<Credit>, x: Credit)
    requires s != [] && !Before(x, s[0])
    ensures Insert(s, x)[0] == s[0] && Insert(s, x) != []
  {
    if Before(x, s[|s| - 1]) { InsertKeepsHead(s[..|s| - 1], x); }
  }

  /** Credit i meets q, and of all those that do, none comes before it and none as early
      stands in front of it. */
  ghost predicate First(q: Credit -> bool, s: seq<Credit>, i: nat)
    requires i < |s|
  {
    q(s[i]) && forall j :: 0 <= j < |s| && q(s[j]) ==> !Before(s[j], s[i]) && (j < i ==> Before(s[i], s[j]))
  }

  lemma LastIsHead(s: seq<Credit>, x: Credit)
    requires forall c :: c in s ==> Before(x, c)
    ensures StableSort(s + [x]) == [x] + StableSort(s)
  {
    StableSortPermutes(s);
    forall c | c in StableSort(s) ensures Before(x, c) {
      assert c in multiset(StableSort(s)) && c in s;
    }
    InsertAtFront(StableSort(s), x);
    SortSnoc(s, x);
  }

  lemma {:induction false} HeadOfSort(q: Credit -> bool, s: seq<Credit>, i: nat)
    requires i < |s| && First(q, s, i)
    ensures StableSort(Filter(q, s)) != [] && StableSort(Filter(q, s))[0] == s[i]
  {
    var init, last := s[..|s| - 1], s[|s| - 1];
    var kept := Filter(q, init);
    assert s == init + [last];
    FilterSnoc(q, init, last);
    if i < |init| {
      assert First(q, init, i);
      HeadOfSort(q, init, i);
      if q(last) {
        SortSnoc(kept, last);
        InsertKeepsHead(StableSort(kept), last);
      }
    } else {
      FilterMembers(q, init);
      LastIsHead(kept, last);
    }
  }

  lemma {:induction false} FirstExists(q: Credit -> bool, s: seq<Credit>, k: nat) returns (i: nat)
    requires k < |s| && q(s[k])
    ensures i < |s| && First(q, s, i)
  {
    var init, last := s[..|s| - 1], s[|s| - 1];
    if m :| 0 <= m < |init| && q(init[m]) {
      i := FirstExists(q, init, m);
      if q(last) && Before(last, s[i]) { i := |init|; }
    } else {
      i := |init|;
    }
  }

  /** The head of the selection is the soonest selectable credit, the first listed of those
      that tie. */
  lemma HeadOfSelect(credits: seq<Credit>, now: Time, i: nat)
    requires i < |credits| && First(SelectableAt(now), credits, i)
    ensures Select(credits, now) != [] && Select(credits, now)[0] == credits[i]
  {
    HeadOfSort(SelectableAt(now), credits, i);
  }

  // ---------- the code ----------

  lemma {:induction false} InsertSplits(s: seq<Credit>, x: Credit, j: nat)
    requires j <= |s|
    requires forall i :: j <= i < |s| ==> Before(x, s[i])
    ensures Insert(s, x) == Insert(s[..j], x) + s[j..]
    decreases |s|
  {
    if j < |s| {
      var init := s[..|s| - 1];
      InsertSplits(init, x, j);
      assert init[..j] == s[..j];
      assert s[j..] == init[j..] + [s[|s| - 1]];
    } else {
      assert s[..j] == s && s[j..] == [];
    }
  }

  /** One pass of the library's insertion: sink a[i] by adjacent swaps. */
  method Sink(a: array<Credit>, i: nat)
    requires i < a.Length
    modifies a
    ensures a[..i + 1] == Insert(old(a[..i]), old(a[i]))
    ensures a[i + 1..] == old(a[i + 1..])
  {
    ghost var sorted, x := a[..i], a[i];
    var j := i;
    while j > 0 && Before(a[j], a[j - 1])
      invariant 0 <= j <= i
      invariant a[j] == x
      invariant forall k :: 0 <= k < j ==> a[k] == sorted[k]
      invariant forall k :: j < k <= i ==> a[k] == sorted[k - 1]
      invariant forall k :: j <= k < i ==> Before(x, sorted[k])
      invariant a[i + 1..] == old(a[i + 1..])
    {
      a[j], a[j - 1] := a[j - 1], a[j];
      j := j - 1;
    }
    InsertSplits(sorted, x, j);
    assert j == 0 || sorted[..j][j - 1] == a[j - 1];
    assert a[..i + 1] == sorted[..j] + [x] + sorted[j..];
  }

  /** The library's stable sort on a short slice, in place. */
  method SliceStable(a: array<Credit>)
    modifies a
    ensures a[..] == StableSort(old(a[..]))
  {
    ghost var was := a[..];
    for i := 0 to a.Length
      invariant a[..i] == StableSort(was[..i])
      invariant a[i..] == was[i..]
    {
      assert a[i] == was[i..][0];
      assert a[i + 1..] == was[i..][1..];
      assert was[..i + 1][..i] == was[..i];
      Sink(a, i);
    }
    assert a[..a.Length] == a[..] && was[..a.Length] == was;
  }

  method AvailableCreditsSorted(credits: seq<Credit>, now: Time) returns (out: seq<Credit>)
    ensures out == Select(credits, now)
  {
    out := [];
    var i := 0;
    while i < |credits|
      invariant 0 <= i <= |credits|
      invariant out == Filter(SelectableAt(now), credits[..i])
    {
      var c := credits[i];
      assert credits[..i + 1][..i] == credits[..i];
      i := i + 1;
      if c.status != "available" { continue; }
      if c.expiresAt != NO_TIME && !(c.expiresAt > now) { continue; }
      out := out + [c];
    }
    assert credits[..i] == credits;
    var slice := new Credit[|out|](k requires 0 <= k < |out| => out[k]);
    assert slice[..] == out;
    SliceStable(slice);
    out := slice[..];
  }
}
