// The capped log buffer: a slice that is appended to, re-sliced and compacted in place.

module LogRing {
  import opened Models
  import opened History

  function NotBefore(s: seq<LogEntry>, cutoff: Time): seq<LogEntry> {
    if s == [] then []
    else
      var rest := NotBefore(s[..|s| - 1], cutoff);
      if s[|s| - 1].timestamp >= cutoff then rest + [s[|s| - 1]] else rest
  }

  lemma NotBeforeSnoc(s: seq<LogEntry>, e: LogEntry, cutoff: Time)
    ensures NotBefore(s + [e], cutoff) == if e.timestamp >= cutoff then NotBefore(s, cutoff) + [e] else NotBefore(s, cutoff)
  {
    assert (s + [e])[..|s|] == s;
  }

  /** a[lo..] begins with front. */
  ghost predicate Begins(a: array<LogEntry>, lo: nat, front: seq<LogEntry>)
    reads a
  {
    lo + |front| <= a.Length && forall j :: 0 <= j < |front| ==> a[lo + j] == front[j]
  }

  /** Append a[i] to the entries kept so far, in the same array. */
  method Keep(a: array<LogEntry>, lo: nat, i: nat, ghost front: seq<LogEntry>, kept: nat)
    requires lo + |front| == kept <= i < a.Length && Begins(a, lo, front)
    modifies a
    ensures Begins(a, lo, front + [old(a[i])])
    ensures forall j :: i < j < a.Length ==> a[j] == old(a[j])
  {
    a[kept] := a[i];
  }

  /** Move the entries of a[lo..hi] that are not older than the cutoff to its front. */
  method Compact(a: array<LogEntry>, lo: nat, hi: nat, cutoff: Time) returns (kept: nat)
    requires lo <= hi <= a.Length
    modifies a
    ensures lo <= kept <= hi && a[lo..kept] == NotBefore(old(a[lo..hi]), cutoff)
  {
    ghost var was, done, front := a[lo..hi], [], [];
    kept := lo;
    for i := lo to hi
      invariant lo + |front| == kept <= i && Begins(a, lo, front)
      invariant |done| == i - lo && front == NotBefore(done, cutoff)
      invariant forall j :: 0 <= j < |done| ==> done[j] == was[j]
      invariant forall j :: i <= j < hi ==> a[j] == was[j - lo]
    {
      NotBeforeSnoc(done, a[i], cutoff);
      done := done + [a[i]];
      if a[i].timestamp >= cutoff {
        Keep(a, lo, i, front, kept);
        front := front + [was[i - lo]];
        kept := kept + 1;
      }
    }
    assert done == was && a[lo..kept] == front;
  }

  class Ring {
    const cap: nat
    var buf: array<LogEntry>
    var lo: nat
    var hi: nat

    ghost predicate Valid()
      reads this
    {
      cap >= 1 && lo <= hi <= buf.Length && hi - lo <= cap
    }

    ghost function Contents(): seq<LogEntry>
      requires Valid()
      reads this, buf
    {
      buf[lo..hi]
    }

    constructor (capacity: int)
      ensures Valid() && fresh(buf) && Contents() == [] && cap == (if capacity < 1 then 1 else capacity)
    {
      cap := if capacity < 1 then 1 else capacity;
      buf := new LogEntry[0];
      lo, hi := 0, 0;
    }

    method Load(entries: seq<LogEntry>)
      requires Valid()
      modifies this
      ensures Valid() && fresh(buf) && Contents() == LastN(cap, entries)
    {
      var kept := if |entries| > cap then entries[|entries| - cap..] else entries;
      buf := new LogEntry[|kept|](i requires 0 <= i < |kept| => kept[i]);
      lo, hi := 0, |kept|;
    }

    /** What Go's append does to a full slice: move to a larger backing array. */
    method Grow()
      requires Valid()
      modifies this
      ensures Valid() && fresh(buf) && hi < buf.Length && Contents() == old(Contents())
    {
      var held := buf[lo..hi];
      buf := new LogEntry[2 * |held| + 1](i => if 0 <= i < |held| then held[i] else LogEntry(NO_TIME, "", Idle, false, None));
      lo, hi := 0, |held|;
    }

    method Push(e: LogEntry)
      requires lo <= hi < buf.Length
      modifies this`hi, buf
      ensures lo <= hi <= buf.Length && hi == old(hi) + 1
      ensures buf[lo..hi] == old(buf[lo..hi]) + [e]
    {
      buf[hi] := e;
      hi := hi + 1;
    }

    method Evict()
      requires lo <= hi <= buf.Length && cap >= 1
      modifies this`lo
      ensures Valid() && Contents() == LastN(cap, old(buf[lo..hi]))
    {
      if hi - lo > cap {
        lo := hi - cap;
      }
    }

    method Append(e: LogEntry)
      requires Valid()
      modifies this, buf
      ensures Valid() && (buf == old(buf) || fresh(buf))
      ensures Contents() == LastN(cap, old(Contents()) + [e])
    {
      if hi == buf.Length {
        Grow();
      }
      Push(e);
      Evict();
    }

    method All() returns (out: array<LogEntry>)
      requires Valid()
      ensures fresh(out) && out[..] == Contents()
    {
      var from, was := lo, buf;
      out := new LogEntry[hi - lo](i requires 0 <= i && from + i < was.Length reads was => was[from + i]);
    }

    method PruneOlderThan(cutoff: Time)
      requires Valid()
      modifies this, buf
      ensures Valid() && buf == old(buf)
      ensures Contents() == NotBefore(old(Contents()), cutoff)
    {
      hi := Compact(buf, lo, hi, cutoff);
    }
  }

  // ---------- any sequence of operations ----------

  datatype Op = Append(e: LogEntry) | Prune(cutoff: Time)

  function Apply(cap: nat, s: seq<LogEntry>, op: Op): seq<LogEntry> {
    match op
    case Append(e) => LastN(cap, s + [e])
    case Prune(cutoff) => NotBefore(s, cutoff)
  }

  function RingAfter(cap: nat, loaded: seq<LogEntry>, ops: seq<Op>): seq<LogEntry> {
    if ops == [] then LastN(cap, loaded) else Apply(cap, RingAfter(cap, loaded, ops[..|ops| - 1]), ops[|ops| - 1])
  }

  /** The log that never evicts: entries in order, minus what a prune removed. */
  function LogAfter(loaded: seq<LogEntry>, ops: seq<Op>): seq<LogEntry> {
    if ops == [] then loaded
    else
      var s := LogAfter(loaded, ops[..|ops| - 1]);
      match ops[|ops| - 1]
      case Append(e) => s + [e]
      case Prune(cutoff) => NotBefore(s, cutoff)
  }

  /** How many of the oldest entries a ring of this capacity has evicted. */
  function Evicted(cap: nat, s: seq<LogEntry>): nat { if |s| > cap then |s| - cap else 0 }

  /** A prune of the ring and of the whole log agree: it drops every evicted entry, or keeps
      every entry the ring still holds. */
  predicate Harmless(cap: nat, s: seq<LogEntry>, cutoff: Time) {
    var n := Evicted(cap, s);
    (forall x :: x in s[..n] ==> x.timestamp < cutoff) || (forall x :: x in s[n..] ==> x.timestamp >= cutoff)
  }

  lemma {:induction false} NotBeforeConcat(a: seq<LogEntry>, b: seq<LogEntry>, cutoff: Time)
    ensures NotBefore(a + b, cutoff) == NotBefore(a, cutoff) + NotBefore(b, cutoff)
  {
    if b == [] {
      assert a + b == a;
    } else {
      NotBeforeConcat(a, b[..|b| - 1], cutoff);
      assert (a + b)[..|a + b| - 1] == a + b[..|b| - 1];
    }
  }

  /** A prune keeps exactly the entries stamped at the cutoff or later, as often as they are
      there; that it keeps them in order is NotBeforeConcat. */
  lemma {:induction false} PruneIsExact(s: seq<LogEntry>, cutoff: Time, e: LogEntry)
    ensures multiset(NotBefore(s, cutoff))[e] == if e.timestamp < cutoff then 0 else multiset(s)[e]
    ensures e in NotBefore(s, cutoff) <==> e in s && e.timestamp >= cutoff
  {
    if s == [] {
    } else {
      PruneIsExact(s[..|s| - 1], cutoff, e);
      assert s == s[..|s| - 1] + [s[|s| - 1]];
    }
  }

  lemma {:induction false} NotBeforeShrinks(s: seq<LogEntry>, cutoff: Time)
    ensures |NotBefore(s, cutoff)| <= |s|
    ensures NotBefore(s, cutoff) == [] <==> forall x :: x in s ==> x.timestamp < cutoff
    ensures |NotBefore(s, cutoff)| == |s| <==> forall x :: x in s ==> x.timestamp >= cutoff
  {
    if s == [] {
    } else {
      NotBeforeShrinks(s[..|s| - 1], cutoff);
      assert s == s[..|s| - 1] + [s[|s| - 1]];
    }
  }

  lemma {:induction false} AllKept(s: seq<LogEntry>, cutoff: Time)
    requires forall x :: x in s ==> x.timestamp >= cutoff
    ensures NotBefore(s, cutoff) == s
  {
    if s == [] {
    } else {
      AllKept(s[..|s| - 1], cutoff);
      assert s == s[..|s| - 1] + [s[|s| - 1]];
    }
  }

  /** What the cap leaves of the pruned log, against the pruned ring. */
  lemma CapOfConcat<T>(cap: nat, front: seq<T>, back: seq<T>)
    requires |back| <= cap
    ensures LastN(cap, front + back) == back <==> front == [] || |back| == cap
  {
    if front == [] { assert front + back == back; }
    else if |back| == cap { assert (front + back)[|front|..] == back; }
  }

  lemma PruneAfterCap(cap: nat, s: seq<LogEntry>, cutoff: Time)
    ensures NotBefore(LastN(cap, s), cutoff) == LastN(cap, NotBefore(s, cutoff)) <==> Harmless(cap, s, cutoff)
  {
    var n := Evicted(cap, s);
    var front, back := NotBefore(s[..n], cutoff), NotBefore(s[n..], cutoff);
    assert s == s[..n] + s[n..] && LastN(cap, s) == s[n..];
    NotBeforeConcat(s[..n], s[n..], cutoff);
    NotBeforeShrinks(s[..n], cutoff);
    NotBeforeShrinks(s[n..], cutoff);
    CapOfConcat(cap, front, back);
    PruneCases(cap, s, cutoff, front, back);
  }

  lemma PruneCases(cap: nat, s: seq<LogEntry>, cutoff: Time, front: seq<LogEntry>, back: seq<LogEntry>)
    requires var n := Evicted(cap, s); front == NotBefore(s[..n], cutoff) && back == NotBefore(s[n..], cutoff)
    ensures front == [] || |back| == cap <==> Harmless(cap, s, cutoff)
  {
    NotBeforeShrinks(s[..Evicted(cap, s)], cutoff);
    NotBeforeShrinks(s[Evicted(cap, s)..], cutoff);
  }

  /** No evicted entry is later than one the ring still holds. */
  predicate EvictsOldest(cap: nat, s: seq<LogEntry>) {
    forall i, j :: 0 <= i < Evicted(cap, s) <= j < |s| ==> s[i].timestamp <= s[j].timestamp
  }

  /** Every prune is harmless exactly when eviction has only taken entries no later than
      those it kept. */
  lemma HarmlessForAll(cap: nat, s: seq<LogEntry>)
    ensures (forall cutoff :: NotBefore(LastN(cap, s), cutoff) == LastN(cap, NotBefore(s, cutoff))) <==> EvictsOldest(cap, s)
  {
    var n := Evicted(cap, s);
    if EvictsOldest(cap, s) {
      forall cutoff ensures NotBefore(LastN(cap, s), cutoff) == LastN(cap, NotBefore(s, cutoff)) {
        OldestIsHarmless(cap, s, cutoff);
        PruneAfterCap(cap, s, cutoff);
      }
    } else {
      var i, j :| 0 <= i < n <= j < |s| && s[i].timestamp > s[j].timestamp;
      assert s[..n][i] in s[..n] && s[n..][j - n] in s[n..];
      PruneAfterCap(cap, s, s[i].timestamp);
      assert !Harmless(cap, s, s[i].timestamp);
    }
  }

  lemma OldestIsHarmless(cap: nat, s: seq<LogEntry>, cutoff: Time)
    requires EvictsOldest(cap, s)
    ensures Harmless(cap, s, cutoff)
  {
    var n := Evicted(cap, s);
    if i :| 0 <= i < n && s[i].timestamp >= cutoff {
      forall x | x in s[n..] ensures x.timestamp >= cutoff {
        var j :| 0 <= j < |s[n..]| && s[n..][j] == x;
        assert s[n + j] == x;
      }
    } else {
      forall x | x in s[..n] ensures x.timestamp < cutoff {
      }
    }
  }

  // ---------- whole runs ----------

  /** Every prune of the run is harmless where it happens. */
  predicate HarmlessRun(cap: nat, loaded: seq<LogEntry>, ops: seq<Op>) {
    ops == [] || (
      var init := ops[..|ops| - 1];
      HarmlessRun(cap, loaded, init)
      && (ops[|ops| - 1].Prune? ==> Harmless(cap, LogAfter(loaded, init), ops[|ops| - 1].cutoff)))
  }

  /** After every operation the ring is the last entries of the log that never evicts. */
  ghost predicate AlwaysLastOfLog(cap: nat, loaded: seq<LogEntry>, ops: seq<Op>) {
    forall n :: 0 <= n <= |ops| ==> IsLastOfLog(cap, loaded, ops[..n])
  }

  predicate IsLastOfLog(cap: nat, loaded: seq<LogEntry>, ops: seq<Op>) {
    RingAfter(cap, loaded, ops) == LastN(cap, LogAfter(loaded, ops))
  }

  lemma StepKeepsLast(cap: nat, loaded: seq<LogEntry>, ops: seq<Op>)
    requires ops != [] && IsLastOfLog(cap, loaded, ops[..|ops| - 1])
    ensures IsLastOfLog(cap, loaded, ops) <==>
      (ops[|ops| - 1].Prune? ==> Harmless(cap, LogAfter(loaded, ops[..|ops| - 1]), ops[|ops| - 1].cutoff))
  {
    var s := LogAfter(loaded, ops[..|ops| - 1]);
    match ops[|ops| - 1]
    case Append(e) => LastNOfLastN(cap, s, [e]);
    case Prune(cutoff) => PruneAfterCap(cap, s, cutoff);
  }

  lemma AlwaysSplits(cap: nat, loaded: seq<LogEntry>, ops: seq<Op>)
    requires ops != []
    ensures AlwaysLastOfLog(cap, loaded, ops) <==>
      AlwaysLastOfLog(cap, loaded, ops[..|ops| - 1]) && IsLastOfLog(cap, loaded, ops)
  {
    var init := ops[..|ops| - 1];
    assert ops[..|ops|] == ops;
    if AlwaysLastOfLog(cap, loaded, ops) {
      forall n | 0 <= n <= |init| ensures IsLastOfLog(cap, loaded, init[..n]) { assert init[..n] == ops[..n]; }
    } else if AlwaysLastOfLog(cap, loaded, init) && IsLastOfLog(cap, loaded, ops) {
      forall n | 0 <= n <= |ops| ensures IsLastOfLog(cap, loaded, ops[..n]) {
        if n < |ops| { assert init[..n] == ops[..n]; }
      }
    }
  }

  /** Evicting at every append and pruning what is left is never evicting and keeping the
      last cap entries, exactly for the runs whose prunes are all harmless. */
  lemma {:induction false} RingIsLastOfLog(cap: nat, loaded: seq<LogEntry>, ops: seq<Op>)
    ensures AlwaysLastOfLog(cap, loaded, ops) <==> HarmlessRun(cap, loaded, ops)
  {
    if ops == [] {
      assert ops[..0] == [];
    } else {
      var init := ops[..|ops| - 1];
      RingIsLastOfLog(cap, loaded, init);
      AlwaysSplits(cap, loaded, ops);
      assert init[..|init|] == init;
      if IsLastOfLog(cap, loaded, init) { StepKeepsLast(cap, loaded, ops); }
      else { assert !AlwaysLastOfLog(cap, loaded, init); }
    }
  }

  /** A run that never prunes, as the plugin itself runs, is one of them, whatever the order
      of the time stamps. */
  lemma {:induction false} OnlyPrunesDiffer(cap: nat, loaded: seq<LogEntry>, ops: seq<Op>)
    requires forall i :: 0 <= i < |ops| ==> ops[i].Append?
    ensures IsLastOfLog(cap, loaded, ops)
  {
    if ops == [] {
    } else {
      OnlyPrunesDiffer(cap, loaded, ops[..|ops| - 1]);
      StepKeepsLast(cap, loaded, ops);
    }
  }

  /** Whenever a prune happens, no evicted entry is later than one still held; a log written
      in time order is one way to be so. */
  predicate OldestFirst(cap: nat, loaded: seq<LogEntry>, ops: seq<Op>) {
    ops == [] || (
      OldestFirst(cap, loaded, ops[..|ops| - 1])
      && (ops[|ops| - 1].Prune? ==> EvictsOldest(cap, LogAfter(loaded, ops[..|ops| - 1]))))
  }

  /** Then the ring is the last of the log after every operation, whatever the cutoffs. */
  lemma {:induction false} OldestFirstAgrees(cap: nat, loaded: seq<LogEntry>, ops: seq<Op>)
    requires OldestFirst(cap, loaded, ops)
    ensures HarmlessRun(cap, loaded, ops) && IsLastOfLog(cap, loaded, ops)
  {
    if ops == [] {
    } else {
      var init := ops[..|ops| - 1];
      OldestFirstAgrees(cap, loaded, init);
      if ops[|ops| - 1].Prune? { OldestIsHarmless(cap, LogAfter(loaded, init), ops[|ops| - 1].cutoff); }
      StepKeepsLast(cap, loaded, ops);
    }
  }

  predicate InOrder(s: seq<LogEntry>) {
    forall i, j :: 0 <= i < j < |s| ==> s[i].timestamp <= s[j].timestamp
  }

  /** Loaded in time order, and no entry is earlier than one logged before it. */
  predicate Chronological(loaded: seq<LogEntry>, ops: seq<Op>) {
    if ops == [] then InOrder(loaded)
    else
      Chronological(loaded, ops[..|ops| - 1])
      && match ops[|ops| - 1]
         case Append(e) => forall x :: x in LogAfter(loaded, ops[..|ops| - 1]) ==> x.timestamp <= e.timestamp
         case Prune(_) => true
  }

  lemma {:induction false} NotBeforeInOrder(s: seq<LogEntry>, cutoff: Time)
    requires InOrder(s)
    ensures InOrder(NotBefore(s, cutoff)) && forall x :: x in NotBefore(s, cutoff) ==> x in s
  {
    if s == [] {
    } else {
      NotBeforeInOrder(s[..|s| - 1], cutoff);
      var kept := NotBefore(s[..|s| - 1], cutoff);
      forall i | 0 <= i < |kept| ensures kept[i].timestamp <= s[|s| - 1].timestamp {
        assert kept[i] in s[..|s| - 1];
      }
    }
  }

  /** A log written in time order is one that always evicts its oldest. */
  lemma {:induction false} ChronologicalIsOldestFirst(cap: nat, loaded: seq<LogEntry>, ops: seq<Op>)
    requires Chronological(loaded, ops)
    ensures InOrder(LogAfter(loaded, ops)) && OldestFirst(cap, loaded, ops)
  {
    if ops == [] {
    } else {
      ChronologicalIsOldestFirst(cap, loaded, ops[..|ops| - 1]);
      if ops[|ops| - 1].Prune? { NotBeforeInOrder(LogAfter(loaded, ops[..|ops| - 1]), ops[|ops| - 1].cutoff); }
    }
  }

  /** In any order of writing the ring never exceeds its cap, so saving all() and loading it
      back restores the ring exactly. */
  lemma {:induction false} LoadOfAllIsIdentity(cap: nat, loaded: seq<LogEntry>, ops: seq<Op>)
    ensures |RingAfter(cap, loaded, ops)| <= cap
    ensures RingAfter(cap, RingAfter(cap, loaded, ops), []) == RingAfter(cap, loaded, ops)
  {
    if ops == [] {
    } else {
      LoadOfAllIsIdentity(cap, loaded, ops[..|ops| - 1]);
      if ops[|ops| - 1].Prune? { NotBeforeShrinks(RingAfter(cap, loaded, ops[..|ops| - 1]), ops[|ops| - 1].cutoff); }
    }
  }

  /** One entry, then n earlier ones. */
  function Buried(later: LogEntry, earlier: LogEntry, n: nat): seq<Op> {
    if n == 0 then [Append(later)] else Buried(later, earlier, n - 1) + [Append(earlier)]
  }

  function Copies(n: nat, e: LogEntry): (s: seq<LogEntry>)
    ensures |s| == n && forall x :: x in s ==> x == e
  {
    if n == 0 then [] else Copies(n - 1, e) + [e]
  }

  lemma {:induction false} BuriedLog(later: LogEntry, earlier: LogEntry, n: nat)
    ensures LogAfter([], Buried(later, earlier, n)) == [later] + Copies(n, earlier)
    ensures forall i :: 0 <= i < |Buried(later, earlier, n)| ==> Buried(later, earlier, n)[i].Append?
  {
    var ops := Buried(later, earlier, n);
    if n == 0 {
      assert [Append(later)][..0] == [];
      assert [later] + [] == [later];
    } else {
      BuriedLog(later, earlier, n - 1);
      assert ops[..|ops| - 1] == Buried(later, earlier, n - 1);
      assert [later] + (Copies(n - 1, earlier) + [earlier]) == [later] + Copies(n - 1, earlier) + [earlier];
    }
  }

  lemma PrunesAllButOne(later: LogEntry, earlier: LogEntry, n: nat)
    requires earlier.timestamp < later.timestamp
    ensures NotBefore([later] + Copies(n, earlier), later.timestamp) == [later]
  {
    NotBeforeConcat([later], Copies(n, earlier), later.timestamp);
    NotBeforeShrinks(Copies(n, earlier), later.timestamp);
    AllKept([later], later.timestamp);
  }

  /** For every capacity there is a run that differs: one entry, as many earlier ones as
      evict it, and a prune that removes those. */
  lemma OutOfOrderDiffers(cap: nat, later: LogEntry, earlier: LogEntry)
    requires cap >= 1 && earlier.timestamp < later.timestamp
    ensures var ops := Buried(later, earlier, cap) + [Prune(later.timestamp)];
      RingAfter(cap, [], ops) == [] && LastN(cap, LogAfter([], ops)) == [later]
  {
    var buried, all := Buried(later, earlier, cap), Copies(cap, earlier);
    BuriedLog(later, earlier, cap);
    OnlyPrunesDiffer(cap, [], buried);
    CapOfBuried(cap, later, all);
    assert (buried + [Prune(later.timestamp)])[..|buried|] == buried;
    NotBeforeShrinks(all, later.timestamp);
    PrunesAllButOne(later, earlier, cap);
  }

  lemma CapOfBuried(cap: nat, later: LogEntry, all: seq<LogEntry>)
    requires |all| == cap >= 1
    ensures LastN(cap, [later] + all) == all && LastN(cap, [later]) == [later]
  {
  }
}
