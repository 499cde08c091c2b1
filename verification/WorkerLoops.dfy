// The worker's loops over its tables, in place, against the functions the step system uses.

module WorkerLoops {
  import opened Models
  import opened Account
  import opened Worker

  // ---------- picking the soonest ----------

  /** One visit of every key, in some order. */
  ghost predicate Visits(order: seq<string>, keys: set<string>) {
    && (forall id :: id in order <==> id in keys)
    && (forall i, j :: 0 <= i < j < |order| ==> order[i] != order[j])
  }

  /** The running minimum after the visits of order; the empty id doubles as "none yet". */
  function RunningSoonest(fsms: map<string, Account>, order: seq<string>): (string, Time)
    requires forall id :: id in order ==> id in fsms
  {
    if order == [] then ("", NO_TIME)
    else
      var best, id := RunningSoonest(fsms, order[..|order| - 1]), order[|order| - 1];
      var nw := fsms[id].fsm.nextWake;
      if nw != NO_TIME && (best.0 == "" || nw < best.1) then (id, nw) else best
  }

  /** What the loop takes the answer to mean: an account to wake for, none being earlier, or
      no account with a wake at all. */
  ghost predicate RightPick(fsms: map<string, Account>, best: (string, Time)) {
    if best.0 == "" then forall id :: id in fsms ==> !Waiting(fsms, id)
    else
      && Waiting(fsms, best.0) && best.1 == fsms[best.0].fsm.nextWake
      && forall id :: Waiting(fsms, id) ==> best.1 <= fsms[id].fsm.nextWake
  }

  /** first waits no longer than any other account with a name. */
  ghost predicate FirstNamed(fsms: map<string, Account>, first: string) {
    && first != "" && Waiting(fsms, first)
    && forall id :: id != "" && Waiting(fsms, id) ==> fsms[first].fsm.nextWake <= fsms[id].fsm.nextWake
  }

  lemma {:induction false} FirstNamedExists(fsms: map<string, Account>, among: set<string>, some: string) returns (first: string)
    requires some in among && some != "" && Waiting(fsms, some)
    ensures first in among && first != "" && Waiting(fsms, first)
    ensures forall id :: id in among && id != "" && Waiting(fsms, id) ==> fsms[first].fsm.nextWake <= fsms[id].fsm.nextWake
    decreases |among|
  {
    var rest := among - {some};
    if other :| other in rest && other != "" && Waiting(fsms, other) {
      first := FirstNamedExists(fsms, rest, other);
      if fsms[some].fsm.nextWake < fsms[first].fsm.nextWake { first := some; }
    } else {
      first := some;
    }
  }

  lemma {:induction false} ScanFindsFirst(fsms: map<string, Account>, order: seq<string>, first: string)
    requires (forall id :: id in order ==> id in fsms) && FirstNamed(fsms, first)
    requires Waiting(fsms, "") ==> fsms[first].fsm.nextWake <= fsms[""].fsm.nextWake
    ensures var best := RunningSoonest(fsms, order);
      && (best.0 != "" ==> Waiting(fsms, best.0) && best.1 == fsms[best.0].fsm.nextWake)
      && (first in order ==> best.0 != "" && best.1 == fsms[first].fsm.nextWake)
  {
    if order == [] {
    } else {
      ScanFindsFirst(fsms, order[..|order| - 1], first);
      assert order == order[..|order| - 1] + [order[|order| - 1]];
    }
  }

  lemma {:induction false} ScanFindsNothing(fsms: map<string, Account>, order: seq<string>)
    requires forall id :: id in order ==> id in fsms && !Waiting(fsms, id)
    ensures RunningSoonest(fsms, order) == ("", NO_TIME)
  {
    if order == [] {
    } else {
      ScanFindsNothing(fsms, order[..|order| - 1]);
    }
  }

  lemma ScanIsRight(fsms: map<string, Account>, order: seq<string>)
    requires Visits(order, fsms.Keys) && NamelessNotFirst(fsms)
    ensures RightPick(fsms, RunningSoonest(fsms, order))
  {
    if some :| some != "" && Waiting(fsms, some) {
      var first := FirstNamedExists(fsms, fsms.Keys, some);
      ScanFindsFirst(fsms, order, first);
    } else {
      ScanFindsNothing(fsms, order);
    }
  }

  lemma {:induction false} VisitExists(keys: set<string>) returns (order: seq<string>)
    ensures Visits(order, keys)
    decreases |keys|
  {
    if keys == {} {
      order := [];
    } else {
      var id :| id in keys;
      order := VisitExists(keys - {id});
      order := order + [id];
    }
  }

  lemma {:induction false} ScanStaysLater(fsms: map<string, Account>, order: seq<string>, bound: Time)
    requires forall id :: id in order ==> id in fsms && id != "" && (Waiting(fsms, id) ==> fsms[id].fsm.nextWake > bound)
    ensures RunningSoonest(fsms, order).0 == "" || RunningSoonest(fsms, order).1 > bound
  {
    if order == [] {
    } else {
      var init := order[..|order| - 1];
      forall id | id in init ensures id in order {
      }
      ScanStaysLater(fsms, init, bound);
    }
  }

  lemma VisitSnoc(order: seq<string>, keys: set<string>, id: string)
    requires Visits(order, keys) && id !in keys
    ensures Visits(order + [id], keys + {id}) && (order + [id])[..|order|] == order
  {
  }

  /** A search that comes to a strictly soonest nameless account last, or last but for one. */
  lemma NamelessHides(fsms: map<string, Account>, but: set<string>) returns (order: seq<string>)
    requires !NamelessNotFirst(fsms) && "" !in but
    ensures Visits(order, fsms.Keys - but) && RunningSoonest(fsms, order) == ("", fsms[""].fsm.nextWake)
  {
    var named := VisitExists(fsms.Keys - but - {""});
    ScanStaysLater(fsms, named, fsms[""].fsm.nextWake);
    order := named + [""];
    VisitSnoc(named, fsms.Keys - but - {""}, "");
    assert fsms.Keys - but - {""} + {""} == fsms.Keys - but;
  }

  /** The pick is right in every map order exactly when no waiting account with the empty id
      is strictly the soonest. */
  lemma SoonestIsRight(fsms: map<string, Account>)
    ensures NamelessNotFirst(fsms) <==>
      forall order :: Visits(order, fsms.Keys) ==> RightPick(fsms, RunningSoonest(fsms, order))
  {
    if NamelessNotFirst(fsms) {
      forall order | Visits(order, fsms.Keys) ensures RightPick(fsms, RunningSoonest(fsms, order)) {
        ScanIsRight(fsms, order);
      }
    } else {
      var order := NamelessHides(fsms, {});
      assert fsms.Keys - {} == fsms.Keys;
    }
  }

  // ---------- the step system's picks are the loop's ----------

  /** A search that ends in id. */
  ghost predicate EndsIn(fsms: map<string, Account>, order: seq<string>, id: string) {
    Visits(order, fsms.Keys) && RunningSoonest(fsms, order).0 == id
  }

  lemma {:induction false} PickIsWaiting(fsms: map<string, Account>, order: seq<string>)
    requires forall id :: id in order ==> id in fsms
    ensures var best := RunningSoonest(fsms, order);
      best.0 != "" ==> Waiting(fsms, best.0) && best.1 == fsms[best.0].fsm.nextWake
  {
    if order == [] {
    } else {
      var init := order[..|order| - 1];
      forall id | id in init ensures id in order {
      }
      PickIsWaiting(fsms, init);
    }
  }

  /** An account that comes first keeps its place against accounts that are no earlier. */
  lemma {:induction false} FirstStays(fsms: map<string, Account>, id: string, rest: seq<string>)
    requires id != "" && Waiting(fsms, id)
    requires forall j :: j in rest ==> j in fsms && (Waiting(fsms, j) ==> fsms[id].fsm.nextWake <= fsms[j].fsm.nextWake)
    ensures (forall j :: j in [id] + rest ==> j in fsms) && RunningSoonest(fsms, [id] + rest) == (id, fsms[id].fsm.nextWake)
  {
    if rest == [] {
      assert [id] + rest == [id] && [id][..0] == [];
    } else {
      var init := rest[..|rest| - 1];
      forall j | j in init ensures j in rest {
      }
      FirstStays(fsms, id, init);
      assert ([id] + rest)[..|rest|] == [id] + init;
    }
  }

  lemma VisitFrom(keys: set<string>, id: string) returns (rest: seq<string>)
    requires id in keys
    ensures Visits([id] + rest, keys) && forall j :: j in rest ==> j in keys
  {
    rest := VisitExists(keys - {id});
  }

  lemma PickIsReached(fsms: map<string, Account>, id: string) returns (order: seq<string>)
    requires CanPick(fsms, id)
    ensures EndsIn(fsms, order, id)
  {
    if NamelessNotFirst(fsms) {
      var rest := VisitFrom(fsms.Keys, id);
      FirstStays(fsms, id, rest);
      order := [id] + rest;
    } else {
      var before := NamelessHides(fsms, {id});
      VisitSnoc(before, fsms.Keys - {id}, id);
      assert fsms.Keys - {id} + {id} == fsms.Keys;
      order := before + [id];
    }
  }

  lemma NoneIsReached(fsms: map<string, Account>) returns (order: seq<string>)
    requires CanPickNone(fsms)
    ensures EndsIn(fsms, order, "")
  {
    if NamelessNotFirst(fsms) {
      order := VisitExists(fsms.Keys);
      ScanFindsNothing(fsms, order);
    } else {
      order := NamelessHides(fsms, {});
      assert fsms.Keys - {} == fsms.Keys;
    }
  }

  /** What the step system lets the search return is exactly what it returns in some map
      order, and never anything else. */
  lemma PicksAreSearches(fsms: map<string, Account>, id: string)
    ensures (if id == "" then CanPickNone(fsms) else CanPick(fsms, id)) <==> exists order :: EndsIn(fsms, order, id)
  {
    if id == "" {
      if CanPickNone(fsms) { var order := NoneIsReached(fsms); }
    } else if CanPick(fsms, id) {
      var order := PickIsReached(fsms, id);
    }
    if order :| EndsIn(fsms, order, id) {
      PickIsWaiting(fsms, order);
      if NamelessNotFirst(fsms) { ScanIsRight(fsms, order); }
    }
  }

  class AccountTables {
    const cfg: Config
    var fsms: map<string, Account>
    var missingRetryAt: map<string, Time>
    var resolvedEnabled: seq<string>

    constructor (cfg: Config, enabled: seq<string>)
      ensures this.cfg == cfg
      ensures fsms == map[] && missingRetryAt == map[]
      ensures resolvedEnabled == (if EnablesAll(enabled) then [] else enabled)
    {
      this.cfg := cfg;
      fsms, missingRetryAt := map[], map[];
      resolvedEnabled := if EnablesAll(enabled) then [] else enabled;
    }

    /** The account with the earliest non-zero wake; map order, hence ties, are arbitrary. */
    method Soonest() returns (bestID: string, best: Time)
      ensures exists order :: Visits(order, fsms.Keys) && (bestID, best) == RunningSoonest(fsms, order)
      ensures NamelessNotFirst(fsms) ==> RightPick(fsms, (bestID, best))
    {
      bestID, best := "", NO_TIME;
      var todo := fsms.Keys;
      ghost var order := [];
      while todo != {}
        invariant todo <= fsms.Keys && Visits(order, fsms.Keys - todo)
        invariant (bestID, best) == RunningSoonest(fsms, order)
        decreases todo
      {
        var id :| id in todo;
        todo := todo - {id};
        assert (order + [id])[..|order|] == order;
        order := order + [id];
        var nw := fsms[id].fsm.nextWake;
        if nw != NO_TIME && (bestID == "" || nw < best) {
          bestID, best := id, nw;
        }
      }
      assert fsms.Keys - todo == fsms.Keys;
      if NamelessNotFirst(fsms) { ScanIsRight(fsms, order); }
    }

    method RetryMissing(now: Time) returns (retry: seq<string>)
      ensures retry == RetryList(resolvedEnabled, fsms.Keys, missingRetryAt, now)
    {
      retry := [];
      for i := 0 to |resolvedEnabled|
        invariant retry == RetryList(resolvedEnabled[..i], fsms.Keys, missingRetryAt, now)
      {
        var id := resolvedEnabled[i];
        assert resolvedEnabled[..i + 1][..i] == resolvedEnabled[..i];
        if id in fsms { continue; }
        if id in missingRetryAt && now < missingRetryAt[id] { continue; }
        retry := retry + [id];
      }
      assert resolvedEnabled[..|resolvedEnabled|] == resolvedEnabled;
    }

    method NextMissingRetryDelay(now: Time) returns (delay: int)
      ensures delay == MissingRetryDelay(resolvedEnabled, fsms.Keys, missingRetryAt, now)
    {
      var soonest: Option<Time> := None;
      for i := 0 to |resolvedEnabled|
        invariant SoonestMissing(resolvedEnabled[..i], fsms.Keys, missingRetryAt) == Some(soonest)
      {
        var id := resolvedEnabled[i];
        assert resolvedEnabled[..i + 1][..i] == resolvedEnabled[..i];
        if id in fsms { continue; }
        if id !in missingRetryAt {
          DueNow(resolvedEnabled, fsms.Keys, missingRetryAt, i + 1);
          return 0;
        }
        if soonest.None? || missingRetryAt[id] < soonest.value {
          soonest := Some(missingRetryAt[id]);
        }
      }
      assert resolvedEnabled[..|resolvedEnabled|] == resolvedEnabled;
      delay := if soonest.None? then IDLE_DELAY else soonest.value - now;
    }

    method EnsureFSM(id: string, loaded: bool, now: Time)
      modifies this`fsms, this`missingRetryAt
      ensures fsms == if id !in old(fsms) && loaded then old(fsms)[id := Fresh(now)] else old(fsms)
      ensures missingRetryAt ==
        if id in old(fsms) then old(missingRetryAt)
        else if loaded then old(missingRetryAt) - {id}
        else old(missingRetryAt)[id := now + CREDENTIAL_RETRY]
    {
      if id in fsms {
        return;
      }
      if !loaded {
        missingRetryAt := missingRetryAt[id := now + CREDENTIAL_RETRY];
        return;
      }
      fsms := fsms[id := Fresh(now)];
      missingRetryAt := missingRetryAt - {id};
    }

    /** The reaping half of maybeResolveWildcard: delete while iterating. */
    method ApplyEnumeration(ids: seq<string>)
      modifies this
      ensures resolvedEnabled == ids
      ensures fsms == Kept(old(fsms), ids)
      ensures missingRetryAt == map id | id in old(missingRetryAt) && id in ids :: old(missingRetryAt)[id]
    {
      resolvedEnabled := ids;
      ghost var before, retries := fsms, missingRetryAt;
      var todo := fsms.Keys;
      while todo != {}
        invariant todo <= before.Keys && resolvedEnabled == ids
        invariant fsms == map id | id in before && (id in todo || id in ids || !before[id].fsm.state.Idle?) :: before[id]
        invariant forall id :: id in retries && id in ids ==> id in missingRetryAt
        invariant forall id :: id in missingRetryAt ==> id in retries && missingRetryAt[id] == retries[id]
        decreases todo
      {
        var id :| id in todo;
        todo := todo - {id};
        if id in ids || !fsms[id].fsm.state.Idle? { continue; }
        fsms := fsms - {id};
        missingRetryAt := missingRetryAt - {id};
      }
      todo := missingRetryAt.Keys;
      while todo != {}
        invariant todo <= missingRetryAt.Keys && resolvedEnabled == ids && fsms == Kept(before, ids)
        invariant forall id :: id in retries && id in ids ==> id in missingRetryAt
        invariant forall id :: id in missingRetryAt ==> id in retries && missingRetryAt[id] == retries[id] && (id in todo || id in ids)
        decreases todo
      {
        var id :| id in todo;
        todo := todo - {id};
        if id !in ids {
          missingRetryAt := missingRetryAt - {id};
        }
      }
    }
  }

  lemma {:induction false} DueNow(resolved: seq<string>, present: set<string>, missing: map<string, Time>, i: nat)
    requires i <= |resolved| && SoonestMissing(resolved[..i], present, missing).None?
    ensures SoonestMissing(resolved, present, missing).None?
    decreases |resolved|
  {
    if i < |resolved| {
      assert resolved[..|resolved| - 1][..i] == resolved[..i];
      DueNow(resolved[..|resolved| - 1], present, missing, i);
    } else {
      assert resolved[..i] == resolved;
    }
  }

  /** The delay is the time to the earliest retry among the enabled ids without a machine;
      zero as soon as one of them has no retry time at all. */
  lemma {:induction false} SoonestMissingIsMinimum(resolved: seq<string>, present: set<string>, missing: map<string, Time>)
    ensures var r := SoonestMissing(resolved, present, missing);
      && (r.None? <==> exists id :: id in resolved && id !in present && id !in missing)
      && (r == Some(None) <==> forall id :: id in resolved ==> id in present)
      && (r.Some? && r.value.Some? ==>
            && (exists id :: id in resolved && id !in present && id in missing && missing[id] == r.value.value)
            && (forall id :: id in resolved && id !in present ==> id in missing && r.value.value <= missing[id]))
  {
    if resolved == [] {
    } else {
      SoonestMissingIsMinimum(resolved[..|resolved| - 1], present, missing);
      assert resolved == resolved[..|resolved| - 1] + [resolved[|resolved| - 1]];
    }
  }
}
