// A verification leaves two traces, a log entry and a history record; what a restart makes
// of the pair.

module Backfilling {
  import opened Models
  import opened Machine
  import opened Account
  import opened History

  /** The audit-trail entry of a verification, stamped by its own clock reading.  Only the
      success message contains the words the backfill looks for. */
  function VerificationLog(p: Settings, f: Fsm, e: Env, at: Time): LogEntry
    requires Fetches(f, e)
  {
    var post, success := e.list.value, TargetGone(f, e.list.value) && CountDown1(f, e.list.value) && QuotaUp(f, e.usage.value);
    LogEntry(at, p.authId, Done, success,
             Some(LogDetails(f.attempt.target, f.attempt.pre.availableCount, post.availableCount,
                             f.attempt.pre.weeklyPct, e.usage.value)))
  }

  lemma BackfillOne(history: seq<ResetRecord>, entry: LogEntry)
    ensures Backfill(history, [entry]) ==
      if Eligible(entry) && !HasKey(history, LogKey(entry)) then history + [RecordOf(entry)] else history
  {
    assert [entry][..0] == [];
  }

  /** When the record never reached the disk, the log alone rebuilds it, to the field; only
      the stamp is the log's own. */
  lemma LogRebuildsRecord(p: Settings, f: Fsm, e: Env, at: Time, history: seq<ResetRecord>)
    requires Fetches(f, e) && f.attempt.target != "" && UniqueKeys(history)
    ensures var entry, rebuilt := VerificationLog(p, f, e, at), Record(p, f, e).(timestamp := at);
      Repair(history, [entry]) == if HasKey(history, KeyOf(rebuilt)) then history else history + [rebuilt]
  {
    CollapseOfUnique(history);
    BackfillOne(history, VerificationLog(p, f, e, at));
  }

  /** A restart leaves a duplicate-free history alone exactly when it already knows every
      verification in the log. */
  lemma RestartLeavesAlone(history: seq<ResetRecord>, logs: seq<LogEntry>)
    requires UniqueKeys(history)
    ensures Repair(history, logs) == history <==>
      forall entry :: entry in logs && Eligible(entry) ==> HasKey(history, LogKey(entry))
  {
    CollapseOfUnique(history);
    BackfillProperties(history, logs);
    if forall entry :: entry in logs && Eligible(entry) ==> HasKey(history, LogKey(entry)) {
      BackfillAddsNothing(history, logs);
    }
  }

  lemma {:induction false} BackfillConcat(history: seq<ResetRecord>, a: seq<LogEntry>, b: seq<LogEntry>)
    ensures Backfill(history, a + b) == Backfill(Backfill(history, a), b)
  {
    if b == [] {
      assert a + b == a;
    } else {
      BackfillConcat(history, a, b[..|b| - 1]);
      assert (a + b)[..|a + b| - 1] == a + b[..|b| - 1];
    }
  }

  /** Everything the log tells, but for entry i, is in the history already. */
  ghost predicate OthersKnown(history: seq<ResetRecord>, logs: seq<LogEntry>, i: nat) {
    forall j :: 0 <= j < |logs| && j != i && Eligible(logs[j]) ==> HasKey(history, LogKey(logs[j]))
  }

  lemma BackfillOnlyNew(history: seq<ResetRecord>, logs: seq<LogEntry>, i: nat)
    requires i < |logs| && OthersKnown(history, logs, i)
    ensures Backfill(history, logs) == Backfill(history, [logs[i]])
  {
    var before, after := logs[..i], logs[i + 1..];
    var h := Backfill(history, [logs[i]]);
    assert logs == before + [logs[i]] + after;
    BackfillConcat(history, before + [logs[i]], after);
    BackfillConcat(history, before, [logs[i]]);
    BackfillAddsNothing(history, before);
    BackfillOne(history, logs[i]);
    if Eligible(logs[i]) { HasKeySnoc(history, RecordOf(logs[i])); }
    forall e | e in after && Eligible(e) ensures HasKey(h, LogKey(e)) {
      var j :| 0 <= j < |after| && after[j] == e;
      assert logs[i + 1 + j] == e;
    }
    BackfillAddsNothing(h, after);
  }

  /** The promise that a restart does not count a delivered reset twice, exactly, in any log
      whose other entries are already known: it holds if and only if the log's and the
      record's clock readings fall in the same second.  When they straddle one, the restart
      appends a second record of the same reset. */
  lemma RestartCountsTwice(p: Settings, f: Fsm, e: Env, at: Time, history: seq<ResetRecord>, logs: seq<LogEntry>, i: nat)
    requires Fetches(f, e) && f.attempt.target != "" && UniqueKeys(history + [Record(p, f, e)])
    requires i < |logs| && logs[i] == VerificationLog(p, f, e, at) && !HasKey(history, LogKey(logs[i]))
    requires OthersKnown(history + [Record(p, f, e)], logs, i)
    ensures var delivered := history + [Record(p, f, e)];
      && (Repair(delivered, logs) == delivered <==> at / SECOND == e.later / SECOND)
      && (at / SECOND != e.later / SECOND ==> Repair(delivered, logs) == delivered + [Record(p, f, e).(timestamp := at)])
  {
    var delivered := history + [Record(p, f, e)];
    CollapseOfUnique(delivered);
    BackfillOnlyNew(delivered, logs, i);
    LogRebuildsRecord(p, f, e, at, delivered);
    HasKeySnoc(history, Record(p, f, e));
    assert LogKey(logs[i]) == KeyOf(Record(p, f, e)) <==> at / SECOND == e.later / SECOND;
  }
}
