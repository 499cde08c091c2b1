// The reset history: one record per verified reset, capped, repaired at every boot.

module History {
  import opened Models

  const HISTORY_CAP: nat := 500

  /** The dedup key: account, credit and whole second. */
  datatype Key = Key(authId: string, creditId: string, second: int)

  function KeyOf(r: ResetRecord): Key { Key(r.authId, r.creditId, r.timestamp / SECOND) }

  function LogKey(e: LogEntry): Key
    requires e.details.Some?
  {
    Key(e.scope, e.details.value.creditId, e.timestamp / SECOND)
  }

  // ---------- delivery ----------

  function LastN<T>(n: nat, s: seq<T>): seq<T> { if |s| > n then s[|s| - n..] else s }

  lemma LastNOfLastN<T>(n: nat, s: seq<T>, t: seq<T>)
    ensures LastN(n, LastN(n, s) + t) == LastN(n, s + t)
  {
  }

  function DeliverAll(history: seq<ResetRecord>, recs: seq<ResetRecord>): seq<ResetRecord> {
    if recs == [] then history
    else LastN(HISTORY_CAP, DeliverAll(history, recs[..|recs| - 1]) + [recs[|recs| - 1]])
  }

  /** Capping at every delivery is capping once: after any number of deliveries the history
      is the last 500 of everything there ever was. */
  lemma {:induction false} DeliveriesKeepLatest(history: seq<ResetRecord>, recs: seq<ResetRecord>)
    requires recs != []
    ensures DeliverAll(history, recs) == LastN(HISTORY_CAP, history + recs)
    ensures var all := history + recs; DeliverAll(history, recs) == if |all| <= 500 then all else all[|all| - 500..]
  {
    var init, last := recs[..|recs| - 1], recs[|recs| - 1];
    assert recs == init + [last];
    if init != [] {
      DeliveriesKeepLatest(history, init);
      LastNOfLastN(HISTORY_CAP, history + init, [last]);
      assert history + init + [last] == history + recs;
    } else {
      assert recs == [last] && DeliverAll(history, init) == history;
    }
  }

  // ---------- repair ----------

  /** Keep the first record of every key. */
  function Collapse(s: seq<ResetRecord>): seq<ResetRecord> {
    if s == [] then []
    else
      var init, last := s[..|s| - 1], s[|s| - 1];
      if exists r :: r in init && KeyOf(r) == KeyOf(last) then Collapse(init) else Collapse(init) + [last]
  }

  predicate HasKey(s: seq<ResetRecord>, k: Key) { exists r :: r in s && KeyOf(r) == k }

  predicate UniqueKeys(s: seq<ResetRecord>) {
    forall i, j :: 0 <= i < j < |s| ==> KeyOf(s[i]) != KeyOf(s[j])
  }

  /** A log entry that describes a finished verification. */
  predicate Eligible(e: LogEntry) {
    e.state.Done? && e.details.Some?
    && !(e.details.value.preCredits == 0 && e.details.value.postCredits == 0 && e.details.value.creditId == "")
  }

  function RecordOf(e: LogEntry): ResetRecord
    requires e.details.Some?
  {
    var d := e.details.value;
    ResetRecord(e.timestamp, e.scope, d.creditId, e.verifiedOk, d.preWeekly, d.postWeekly, d.preCredits, d.postCredits)
  }

  function Backfill(history: seq<ResetRecord>, logs: seq<LogEntry>): seq<ResetRecord> {
    if logs == [] then history
    else
      var h, e := Backfill(history, logs[..|logs| - 1]), logs[|logs| - 1];
      if Eligible(e) && !HasKey(h, LogKey(e)) then h + [RecordOf(e)] else h
  }

  /** backfillResetHistoryFromLogs: collapse, then add what only the logs know. */
  function Repair(history: seq<ResetRecord>, logs: seq<LogEntry>): seq<ResetRecord> {
    Backfill(Collapse(history), logs)
  }

  lemma {:induction false} CollapseKeys(s: seq<ResetRecord>)
    ensures forall k :: HasKey(Collapse(s), k) <==> HasKey(s, k)
    ensures UniqueKeys(Collapse(s))
  {
    if s == [] {
    } else {
      var init, last := s[..|s| - 1], s[|s| - 1];
      CollapseKeys(init);
      assert s == init + [last];
      assert HasKey(init, KeyOf(last)) <==> HasKey(Collapse(init), KeyOf(last));
      forall k ensures HasKey(Collapse(s), k) <==> HasKey(s, k) {
        if HasKey(init, KeyOf(last)) {
          if HasKey(s, k) { var r :| r in s && KeyOf(r) == k; assert r in init || r == last; assert HasKey(init, k); }
        } else {
          assert HasKey(Collapse(init), k) <==> HasKey(init, k);
        }
      }
    }
  }

  /** Where the survivors of a collapse stood, in order. */
  function FirstPlaces(s: seq<ResetRecord>): seq<nat> {
    if s == [] then []
    else
      var init := s[..|s| - 1];
      if HasKey(init, KeyOf(s[|s| - 1])) then FirstPlaces(init) else FirstPlaces(init) + [|s| - 1]
  }

  lemma {:induction false} PlaceIsFirst(s: seq<ResetRecord>, i: nat)
    ensures i in FirstPlaces(s) <==> i < |s| && !HasKey(s[..i], KeyOf(s[i]))
  {
    if s == [] {
    } else {
      var init := s[..|s| - 1];
      PlaceIsFirst(init, i);
      if i < |init| {
        assert s[..i] == init[..i];
      } else if i == |init| {
        assert s[..i] == init;
      }
    }
  }

  lemma {:induction false} PlacesAscend(s: seq<ResetRecord>)
    ensures |Collapse(s)| == |FirstPlaces(s)|
    ensures forall k :: 0 <= k < |FirstPlaces(s)| ==>
      FirstPlaces(s)[k] < |s| && Collapse(s)[k] == s[FirstPlaces(s)[k]]
    ensures forall k, m :: 0 <= k < m < |FirstPlaces(s)| ==> FirstPlaces(s)[k] < FirstPlaces(s)[m]
  {
    if s == [] {
    } else {
      PlacesAscend(s[..|s| - 1]);
    }
  }

  /** A collapse keeps exactly the records no earlier record shares a key with, in their
      original order. */
  lemma CollapseKeepsFirsts(s: seq<ResetRecord>)
    ensures var at := FirstPlaces(s);
      && |Collapse(s)| == |at|
      && (forall k :: 0 <= k < |at| ==> at[k] < |s| && Collapse(s)[k] == s[at[k]])
      && (forall k, m :: 0 <= k < m < |at| ==> at[k] < at[m])
      && (forall i: nat :: i in at <==> i < |s| && !HasKey(s[..i], KeyOf(s[i])))
  {
    forall i: nat ensures i in FirstPlaces(s) <==> i < |s| && !HasKey(s[..i], KeyOf(s[i])) {
      PlaceIsFirst(s, i);
    }
    PlacesAscend(s);
  }

  lemma {:induction false} BackfillProperties(history: seq<ResetRecord>, logs: seq<LogEntry>)
    requires UniqueKeys(history)
    ensures history <= Backfill(history, logs) && UniqueKeys(Backfill(history, logs))
    ensures forall e :: e in logs && Eligible(e) ==> HasKey(Backfill(history, logs), LogKey(e))
  {
    if logs == [] {
    } else {
      var init, last := logs[..|logs| - 1], logs[|logs| - 1];
      BackfillProperties(history, init);
      assert logs == init + [last];
      var h, h' := Backfill(history, init), Backfill(history, logs);
      forall k | HasKey(h, k) ensures HasKey(h', k) {
        var r :| r in h && KeyOf(r) == k;
        assert r in h';
      }
      if Eligible(last) && !HasKey(h, LogKey(last)) {
        assert KeyOf(RecordOf(last)) == LogKey(last) && RecordOf(last) in h';
        forall i | 0 <= i < |h| ensures KeyOf(h[i]) != KeyOf(RecordOf(last)) {
          assert h[i] in h;
        }
      }
    }
  }

  lemma {:induction false} BackfillAddsNothing(history: seq<ResetRecord>, logs: seq<LogEntry>)
    requires forall e :: e in logs && Eligible(e) ==> HasKey(history, LogKey(e))
    ensures Backfill(history, logs) == history
  {
    if logs == [] {
    } else {
      BackfillAddsNothing(history, logs[..|logs| - 1]);
      assert logs[|logs| - 1] in logs;
    }
  }

  lemma {:induction false} CollapseOfUnique(s: seq<ResetRecord>)
    requires UniqueKeys(s)
    ensures Collapse(s) == s
  {
    if s == [] {
    } else {
      CollapseOfUnique(s[..|s| - 1]);
      assert s == s[..|s| - 1] + [s[|s| - 1]];
    }
  }

  /** A repaired history has no two records with one key, loses no key, keeps the collapsed
      history as its beginning, knows every verification the logs know, and is left alone by
      the next repair. */
  lemma RepairIsIdempotent(history: seq<ResetRecord>, logs: seq<LogEntry>)
    ensures var h := Repair(history, logs);
      && UniqueKeys(h)
      && Collapse(history) <= h
      && (forall r :: r in history ==> HasKey(h, KeyOf(r)))
      && (forall e :: e in logs && Eligible(e) ==> HasKey(h, LogKey(e)))
      && Repair(h, logs) == h
  {
    var c := Collapse(history);
    CollapseKeys(history);
    BackfillProperties(c, logs);
    var h := Repair(history, logs);
    CollapseOfUnique(h);
    BackfillAddsNothing(h, logs);
    forall r | r in history ensures HasKey(h, KeyOf(r)) {
      assert HasKey(c, KeyOf(r));
      var first :| first in c && KeyOf(first) == KeyOf(r);
      assert first in h;
    }
  }

  // ---------- the code ----------

  /** collapseResetHistoryDuplicates: the survivors are moved to the front of the same
      backing array. */
  method CollapseInPlace(a: array<ResetRecord>) returns (n: nat)
    modifies a
    ensures n <= a.Length && a[..n] == Collapse(old(a[..]))
  {
    ghost var was := a[..];
    var seen: set<Key> := {};
    n := 0;
    for i := 0 to a.Length
      invariant n <= i && a[..n] == Collapse(was[..i]) && a[i..] == was[i..]
      invariant forall k :: k in seen <==> HasKey(was[..i], k)
    {
      var r := a[i];
      var key := KeyOf(r);
      assert r == was[i..][0];
      CollapseSnoc(was, i);
      if key !in seen {
        seen := seen + {key};
        Keep(a, n, i);
        n := n + 1;
      }
      NextTail(a[..], was, i);
    }
    assert a[..n] == Collapse(was[..a.Length]) && was[..a.Length] == was;
  }

  /** Append a[i] to the records kept so far, in the same array. */
  method Keep(a: array<ResetRecord>, n: nat, i: nat)
    requires n <= i < a.Length
    modifies a
    ensures a[..n + 1] == old(a[..n]) + [old(a[i])] && a[i + 1..] == old(a[i + 1..])
  {
    a[n] := a[i];
    assert a[..n] == old(a[..n]);
  }

  lemma NextTail(now: seq<ResetRecord>, was: seq<ResetRecord>, i: nat)
    requires i < |now| == |was| && (now[i..] == was[i..] || now[i + 1..] == was[i..][1..])
    ensures now[i + 1..] == was[i + 1..]
  {
    assert now[i..][1..] == now[i + 1..] && was[i..][1..] == was[i + 1..];
  }

  /** What one more record does to the collapse and to the keys. */
  lemma CollapseSnoc(s: seq<ResetRecord>, i: nat)
    requires i < |s|
    ensures Collapse(s[..i + 1]) == if HasKey(s[..i], KeyOf(s[i])) then Collapse(s[..i]) else Collapse(s[..i]) + [s[i]]
    ensures forall k :: HasKey(s[..i + 1], k) <==> HasKey(s[..i], k) || k == KeyOf(s[i])
  {
    assert s[..i + 1][..i] == s[..i];
    assert s[..i + 1] == s[..i] + [s[i]];
    HasKeySnoc(s[..i], s[i]);
  }

  lemma HasKeySnoc(s: seq<ResetRecord>, r: ResetRecord)
    ensures forall k :: HasKey(s + [r], k) <==> HasKey(s, k) || k == KeyOf(r)
  {
    forall k ensures HasKey(s + [r], k) <==> HasKey(s, k) || k == KeyOf(r) {
      assert r in s + [r];
      assert forall x :: x in s + [r] <==> x in s || x == r;
    }
  }

  class ResetHistory {
    var records: seq<ResetRecord>

    constructor (records: seq<ResetRecord>)
      ensures this.records == records
    {
      this.records := records;
    }

    /** The history part of syncFSMIntoGlobalState. */
    method Deliver(rec: ResetRecord)
      modifies this
      ensures records == DeliverAll(old(records), [rec])
    {
      assert [rec][..0] == [];
      records := records + [rec];
      if |records| > HISTORY_CAP {
        records := records[|records| - HISTORY_CAP..];
      }
    }

    method BackfillFromLogs(logs: seq<LogEntry>)
      modifies this
      ensures records == Repair(old(records), logs)
    {
      var backing := new ResetRecord[|records|](k requires 0 <= k < |records| reads this => records[k]);
      assert backing[..] == records;
      var n := CollapseInPlace(backing);
      records := backing[..n];
      ghost var collapsed := records;
      var existing := set r | r in records :: KeyOf(r);
      for i := 0 to |logs|
        invariant records == Backfill(collapsed, logs[..i])
        invariant forall k :: k in existing <==> HasKey(records, k)
      {
        var e := logs[i];
        assert logs[..i + 1][..i] == logs[..i];
        if !e.state.Done? || e.details.None? { continue; }
        var d := e.details.value;
        if d.preCredits == 0 && d.postCredits == 0 && d.creditId == "" { continue; }
        var key := Key(e.scope, d.creditId, e.timestamp / SECOND);
        if key in existing { continue; }
        HasKeySnoc(records, RecordOf(e));
        records := records + [RecordOf(e)];
        existing := existing + {key};
      }
      assert logs[..|logs|] == logs;
    }
  }
}
