// End to end: the account composed with a server that remembers the keys it has redeemed,
// over a network that may lose the request or the response of any POST, or keep a request
// and deliver it later, more than once or never.

module Redemption {
  import opened Models
  import opened CreditSelection
  import opened Retry
  import opened Machine
  import opened Account
  import opened Attempts

  datatype Redeemed = Redeemed(redeemId: string, creditId: string)

  /** available: id to expiry; keys: what each redeem_request_id has redeemed; spent: this
      client's redemptions, in order. */
  datatype Server = Server(available: map<string, Time>, keys: map<string, string>, spent: seq<Redeemed>)

  datatype Served = Served(server: Server, code: string)

  function Consume(s: Server, redeemId: string, creditId: string): Served {
    if redeemId in s.keys then Served(s, "already_redeemed")
    else if creditId !in s.available then Served(s, "no_credit")
    else Served(
      Server(s.available - {creditId}, s.keys[redeemId := creditId], s.spent + [Redeemed(redeemId, creditId)]),
      "reset")
  }

  /** Delayed: no answer comes, and the request stays in flight. */
  datatype Network = Delivered | RequestLost | ResponseLost | Delayed

  /** late: the requests in flight.  The last two fields only record: how many keys of other
      attempts have redeemed since the current attempt was confirmed, and, for each
      verification, whether any had. */
  datatype System = System(acct: Account, server: Server, late: seq<Redeemed>, strays: nat, strayed: seq<bool>)

  /** What moves the system: the account's actions, each with the fate of the POST it may
      send; a request in flight that is served; and the changes other actors make. */
  datatype Move =
    | Ours(act: Action, net: Network)
    | ServedLate(i: nat)
    | Grant(id: string, expiresAt: Time)
    | TakenByOther(id: string)
    | ExpiredAtServer(id: string)

  predicate Calls(act: Action) { act.Tick? || act.TickPanic? }

  predicate Posts(s: System, act: Action) { Calls(act) && s.acct.fsm.state.Resetting? }

  function Request(s: System): Redeemed { Redeemed(s.acct.fsm.attempt.redeemId, s.acct.fsm.attempt.target) }

  function ServerAfter(s: System, act: Action, net: Network): Server {
    if Posts(s, act) && (net.Delivered? || net.ResponseLost?)
    then Consume(s.server, Request(s).redeemId, Request(s).creditId).server
    else s.server
  }

  function OursNext(p: Settings, s: System, act: Action, net: Network): System {
    var a := Apply(p, s.acct, act);
    System(a, ServerAfter(s, act, net),
           if Posts(s, act) && net.Delayed? then s.late + [Request(s)] else s.late,
           if s.acct.fsm.state.Confirming? && a.fsm.state.Resetting? then 0 else s.strays,
           if |a.verified| > |s.acct.verified| then s.strayed + [s.strays > 0] else s.strayed)
  }

  function ServedNext(s: System, r: Redeemed): System {
    var server := Consume(s.server, r.redeemId, r.creditId).server;
    s.(server := server,
       strays := if server != s.server && r.redeemId != s.acct.fsm.attempt.redeemId then s.strays + 1 else s.strays)
  }

  function Next(p: Settings, s: System, m: Move): System {
    match m
    case Ours(act, net) => OursNext(p, s, act, net)
    case ServedLate(i) => if i < |s.late| then ServedNext(s, s.late[i]) else s
    case Grant(id, expiresAt) => s.(server := s.server.(available := s.server.available[id := expiresAt]))
    case TakenByOther(id) => s.(server := s.server.(available := s.server.available - {id}))
    case ExpiredAtServer(id) => s.(server := s.server.(available := s.server.available - {id}))
  }

  /** A listing counts the available credits and calls no other credit available. */
  predicate Truthful(s: Server, snap: Snapshot) {
    && snap.availableCount == |s.available|
    && forall c :: c in snap.credits && c.status == "available" ==> c.id in s.available
  }

  /** The answers of a tick come from the server: a listing is truthful, and a consume
      answer is the server's own when it arrives and no answer or an HTTP error when not. */
  predicate Honest(s: System, e: Env, net: Network) {
    && (e.list.Some? ==> Truthful(s.server, e.list.value))
    && (s.acct.fsm.state.Resetting? ==>
          if net.Delivered?
          then e.consume == Response(Consume(s.server, s.acct.fsm.attempt.redeemId, s.acct.fsm.attempt.target).code)
          else !e.consume.Response?)
  }

  predicate MoveEnabled(s: System, m: Move) {
    m.Ours? ==> Enabled(s.acct, m.act) && (Calls(m.act) ==> Honest(s, m.act.e, m.net))
  }

  function SystemRun(p: Settings, s: System, ms: seq<Move>): System {
    if ms == [] then s else Next(p, SystemRun(p, s, ms[..|ms| - 1]), ms[|ms| - 1])
  }

  predicate SystemLegal(p: Settings, s: System, ms: seq<Move>) {
    ms == [] ||
    (SystemLegal(p, s, ms[..|ms| - 1]) && MoveEnabled(SystemRun(p, s, ms[..|ms| - 1]), ms[|ms| - 1]))
  }

  function Start(now: Time, available: map<string, Time>): System {
    System(Fresh(now), Server(available, map[], []), [], 0, [])
  }

  // ---------- at most once ----------

  /** The server's dedup table is exactly the list of redemptions, with no key twice, and
      every key redeemed, or still in flight, names the target it was minted for. */
  ghost predicate Ledger(minted: map<string, string>, server: Server, late: seq<Redeemed>) {
    && (forall i :: 0 <= i < |server.spent| ==>
          && server.spent[i].redeemId in server.keys
          && server.keys[server.spent[i].redeemId] == server.spent[i].creditId)
    && (forall i, j :: 0 <= i < j < |server.spent| ==> server.spent[i].redeemId != server.spent[j].redeemId)
    && (forall k :: k in server.keys ==>
          k in minted && minted[k] == server.keys[k] && Redeemed(k, server.keys[k]) in server.spent)
    && (forall r :: r in late ==> r.redeemId in minted && minted[r.redeemId] == r.creditId)
  }

  /** Accepted and verified attempts have redeemed. */
  ghost predicate Accounted(a: Account, server: Server) {
    && (a.fsm.state.Verifying? ==> a.fsm.attempt.redeemId in server.keys)
    && (forall v :: v in a.verified ==> v.redeemId in server.keys && server.keys[v.redeemId] == v.record.creditId)
  }

  ghost predicate Kept(s: System) {
    Attempted(s.acct) && VerifiedOnce(s.acct) && Ledger(s.acct.minted, s.server, s.late) && Accounted(s.acct, s.server)
  }

  lemma ConsumeKeepsLedger(minted: map<string, string>, server: Server, late: seq<Redeemed>, r: Redeemed)
    requires Ledger(minted, server, late) && r.redeemId in minted && minted[r.redeemId] == r.creditId
    ensures Ledger(minted, Consume(server, r.redeemId, r.creditId).server, late)
  {
    var after := Consume(server, r.redeemId, r.creditId).server;
    if after != server {
      assert after.spent == server.spent + [r] && after.spent[|server.spent|] == r;
      forall k | k in after.keys ensures Redeemed(k, after.keys[k]) in after.spent {
        if k != r.redeemId { assert Redeemed(k, server.keys[k]) in server.spent; }
      }
    }
  }

  lemma ConsumeKeepsAccounted(a: Account, server: Server, r: Redeemed)
    requires Accounted(a, server)
    ensures Accounted(a, Consume(server, r.redeemId, r.creditId).server)
  {
  }

  lemma MintedGrows(p: Settings, a: Account, act: Action)
    requires Enabled(a, act)
    ensures forall k :: k in a.minted ==> k in Apply(p, a, act).minted && Apply(p, a, act).minted[k] == a.minted[k]
  {
  }

  lemma LedgerGrows(minted: map<string, string>, more: map<string, string>, server: Server, late: seq<Redeemed>)
    requires Ledger(minted, server, late) && forall k :: k in minted ==> k in more && more[k] == minted[k]
    ensures Ledger(more, server, late)
  {
  }

  lemma OursKeepsLedger(p: Settings, s: System, act: Action, net: Network)
    requires Kept(s) && MoveEnabled(s, Ours(act, net))
    ensures Ledger(Apply(p, s.acct, act).minted, ServerAfter(s, act, net), OursNext(p, s, act, net).late)
  {
    var minted := s.acct.minted;
    var late := OursNext(p, s, act, net).late;
    if Posts(s, act) { ConsumeKeepsLedger(minted, s.server, s.late, Request(s)); }
    assert Ledger(minted, ServerAfter(s, act, net), late);
    MintedGrows(p, s.acct, act);
    LedgerGrows(minted, Apply(p, s.acct, act).minted, ServerAfter(s, act, net), late);
  }

  lemma CalledKeepsAccounted(p: Settings, s: System, act: Action, net: Network, g: Fsm, phase: Phase)
    requires Kept(s) && MoveEnabled(s, Ours(act, net)) && Calls(act) && Edge(s.acct.fsm, act.e, g)
    ensures Accounted(Called(s.acct, act.e, g, phase).(verified := VerifiedAfter(p, s.acct, act.e)), ServerAfter(s, act, net))
  {
  }

  lemma OursKeepsAccounted(p: Settings, s: System, act: Action, net: Network)
    requires Kept(s) && MoveEnabled(s, Ours(act, net))
    ensures Accounted(Apply(p, s.acct, act), ServerAfter(s, act, net))
  {
    match act
    case Tick(e) =>
      var g := StepAndSettle(p, s.acct.fsm, e).fsm;
      OutcomeIsEdge(p, s.acct, e, g);
      CalledKeepsAccounted(p, s, act, net, g, Unsynced);
    case TickPanic(e, InLog) =>
      OutcomeIsEdge(p, s.acct, e, PanickedInLog(p, s.acct.fsm, e));
      CalledKeepsAccounted(p, s, act, net, PanickedInLog(p, s.acct.fsm, e), Recovering);
    case _ =>
  }

  lemma NextKeeps(p: Settings, s: System, m: Move)
    requires p.refreshInterval > 0 && Kept(s) && MoveEnabled(s, m)
    ensures Kept(Next(p, s, m))
  {
    match m
    case Ours(act, net) =>
      OursKeepsLedger(p, s, act, net);
      OursKeepsAccounted(p, s, act, net);
      ApplyKeepsAttempted(p, s.acct, act);
      ApplyKeepsVerifiedOnce(p, s.acct, act);
    case ServedLate(i) =>
      if i < |s.late| {
        ConsumeKeepsLedger(s.acct.minted, s.server, s.late, s.late[i]);
        ConsumeKeepsAccounted(s.acct, s.server, s.late[i]);
      }
    case _ =>
  }

  lemma {:induction false} SystemKeeps(p: Settings, start: Time, available: map<string, Time>, ms: seq<Move>)
    requires start > 0 && p.refreshInterval > 0 && SystemLegal(p, Start(start, available), ms)
    ensures Kept(SystemRun(p, Start(start, available), ms))
  {
    if ms == [] {
    } else {
      var init := ms[..|ms| - 1];
      SystemKeeps(p, start, available, init);
      NextKeeps(p, SystemRun(p, Start(start, available), init), ms[|ms| - 1]);
    }
  }

  /** End to end, whatever the network loses, delays or repeats and whatever other actors do:
      a cycle's key redeems at most one credit and only that cycle's target; and a fully
      fetched verification, hence every success record, belongs to exactly one redemption,
      of the credit it names, and no redemption is verified twice. */
  lemma AtMostOncePerCycle(p: Settings, start: Time, available: map<string, Time>, ms: seq<Move>)
    requires start > 0 && p.refreshInterval > 0 && SystemLegal(p, Start(start, available), ms)
    ensures var s := SystemRun(p, Start(start, available), ms);
      && (forall i :: 0 <= i < |s.server.spent| ==>
            && s.server.spent[i].redeemId in s.acct.minted
            && s.acct.minted[s.server.spent[i].redeemId] == s.server.spent[i].creditId)
      && (forall i, j :: 0 <= i < j < |s.server.spent| ==>
            s.server.spent[i].redeemId != s.server.spent[j].redeemId)
      && (forall v :: v in s.acct.verified ==>
            Redeemed(v.redeemId, v.record.creditId) in s.server.spent)
      && (forall i, j :: 0 <= i < j < |s.acct.verified| ==>
            s.acct.verified[i].redeemId != s.acct.verified[j].redeemId)
  {
    SystemKeeps(p, start, available, ms);
  }

  // ---------- when verification raises the alarm ----------

  /** No other actor, grant or expiry while an attempt is between its confirmation and its
      verification; requests in flight may still be served. */
  predicate QuietMove(s: System, m: Move) {
    MoveEnabled(s, m) && (m.Ours? || m.ServedLate? || !(s.acct.fsm.state.Resetting? || s.acct.fsm.state.Verifying?))
  }

  predicate QuietLegal(p: Settings, s: System, ms: seq<Move>) {
    ms == [] ||
    (QuietLegal(p, s, ms[..|ms| - 1]) && QuietMove(SystemRun(p, s, ms[..|ms| - 1]), ms[|ms| - 1]))
  }

  /** The key has not redeemed; every credit gone since the confirmation went to a stray. */
  ghost predicate Untouched(t: ResetAttempt, server: Server, strays: nat) {
    && t.redeemId !in server.keys && |server.available| == t.pre.availableCount - strays
    && (strays == 0 ==> t.target in server.available)
  }

  ghost predicate JustRedeemed(t: ResetAttempt, server: Server, strays: nat) {
    && t.redeemId in server.keys && t.target !in server.available
    && |server.available| == t.pre.availableCount - 1 - strays
  }

  ghost predicate Window(f: Fsm, server: Server, strays: nat) {
    && (f.state.Resetting? ==> Untouched(f.attempt, server, strays) || JustRedeemed(f.attempt, server, strays))
    && (f.state.Verifying? ==> JustRedeemed(f.attempt, server, strays))
  }

  /** A verification reports a MISMATCH exactly when its window had a stray. */
  ghost predicate AlarmsExplained(verified: seq<Verification>, strayed: seq<bool>) {
    |strayed| == |verified| && forall i :: 0 <= i < |verified| ==> (verified[i].Mismatch() <==> strayed[i])
  }

  ghost predicate Explained(s: System) {
    Window(s.acct.fsm, s.server, s.strays) && AlarmsExplained(s.acct.verified, s.strayed)
  }

  lemma OneLess(m: map<string, Time>, id: string)
    requires id in m
    ensures |m - {id}| == |m| - 1
  {
    assert (m - {id}).Keys == m.Keys - {id};
    assert |m - {id}| == |(m - {id}).Keys| && |m| == |m.Keys|;
  }

  lemma OwnConsumeInWindow(t: ResetAttempt, server: Server, strays: nat)
    requires Untouched(t, server, strays) || JustRedeemed(t, server, strays)
    ensures var s' := Consume(server, t.redeemId, t.target);
      && (Untouched(t, s'.server, strays) || JustRedeemed(t, s'.server, strays))
      && (Classify(Response(s'.code)) == Success ==> JustRedeemed(t, s'.server, strays))
      && (strays == 0 ==> Classify(Response(s'.code)) == Success)
  {
    if t.target in server.available { OneLess(server.available, t.target); }
  }

  lemma StrayInWindow(t: ResetAttempt, server: Server, strays: nat, r: Redeemed)
    requires r.redeemId != t.redeemId && (Untouched(t, server, strays) || JustRedeemed(t, server, strays))
    ensures var after := Consume(server, r.redeemId, r.creditId).server;
      var n := if after != server then strays + 1 else strays;
      && (Untouched(t, server, strays) ==> Untouched(t, after, n))
      && (JustRedeemed(t, server, strays) ==> JustRedeemed(t, after, n))
  {
    if r.creditId in server.available { OneLess(server.available, r.creditId); }
    var after := Consume(server, r.redeemId, r.creditId).server;
    assert after != server ==> r.redeemId in after.keys && r.redeemId !in server.keys;
  }

  lemma ServedKeepsWindow(s: System, r: Redeemed)
    requires Kept(s) && Window(s.acct.fsm, s.server, s.strays) && r in s.late
    ensures Window(s.acct.fsm, ServedNext(s, r).server, ServedNext(s, r).strays)
  {
    var f := s.acct.fsm;
    if f.state.Resetting? || f.state.Verifying? {
      if r.redeemId == f.attempt.redeemId {
        assert r.creditId == f.attempt.target;
        OwnConsumeInWindow(f.attempt, s.server, s.strays);
      } else {
        StrayInWindow(f.attempt, s.server, s.strays, r);
      }
    }
  }

  lemma ConfirmOpensWindow(p: Settings, s: System, e: Env, net: Network)
    requires s.acct.fsm.state.Confirming? && Ledger(s.acct.minted, s.server, s.late) && Due(s.acct, e) && Honest(s, e, net)
    requires Step(p, s.acct.fsm, e).fsm.state.Resetting?
    ensures Untouched(Step(p, s.acct.fsm, e).fsm.attempt, s.server, 0)
  {
    SelectIsSoonestFirst(e.list.value.credits, e.now);
    var avail := Select(e.list.value.credits, e.now);
    var c := ConfirmTarget(s.acct.fsm, avail).value;
    assert c in avail;
  }

  lemma PostKeepsWindow(s: System, act: Action, net: Network, g: Fsm)
    requires s.acct.fsm.state.Resetting? && Window(s.acct.fsm, s.server, s.strays)
    requires MoveEnabled(s, Ours(act, net)) && Calls(act) && Edge(s.acct.fsm, act.e, g)
    ensures Window(g, ServerAfter(s, act, net), s.strays)
  {
    OwnConsumeInWindow(s.acct.fsm.attempt, s.server, s.strays);
  }

  lemma CalledKeepsWindow(p: Settings, s: System, act: Action, net: Network, g: Fsm)
    requires Kept(s) && Window(s.acct.fsm, s.server, s.strays) && MoveEnabled(s, Ours(act, net)) && Calls(act)
    requires Outcome(p, s.acct, act.e, g)
    ensures Window(g, ServerAfter(s, act, net), if s.acct.fsm.state.Confirming? && g.state.Resetting? then 0 else s.strays)
  {
    OutcomeIsEdge(p, s.acct, act.e, g);
    if s.acct.fsm.state.Resetting? { PostKeepsWindow(s, act, net, g); }
    else if g.state.Resetting? { ConfirmOpensWindow(p, s, act.e, net); }
  }

  /** The exact verdict of a verification in a quiet window. */
  lemma VerifyInWindow(p: Settings, s: System, e: Env, net: Network)
    requires Window(s.acct.fsm, s.server, s.strays) && Honest(s, e, net) && Fetches(s.acct.fsm, e)
    ensures Verify(p, s.acct.fsm, e).Mismatch() <==> s.strays > 0
  {
  }

  lemma CallKeepsExplained(p: Settings, s: System, act: Action, net: Network)
    requires Kept(s) && Explained(s) && MoveEnabled(s, Ours(act, net)) && Calls(act)
    ensures Explained(OursNext(p, s, act, net))
  {
    match act
    case Tick(e) =>
      CalledKeepsWindow(p, s, act, net, StepAndSettle(p, s.acct.fsm, e).fsm);
      if Fetches(s.acct.fsm, e) { VerifyInWindow(p, s, e, net); }
    case TickPanic(e, InCall) =>
      if s.acct.fsm.state.Resetting? { OwnConsumeInWindow(s.acct.fsm.attempt, s.server, s.strays); }
    case TickPanic(e, InLog) =>
      CalledKeepsWindow(p, s, act, net, PanickedInLog(p, s.acct.fsm, e));
      if Fetches(s.acct.fsm, e) { VerifyInWindow(p, s, e, net); }
  }

  lemma NextKeepsExplained(p: Settings, s: System, m: Move)
    requires Kept(s) && Explained(s) && QuietMove(s, m)
    ensures Explained(Next(p, s, m))
  {
    match m
    case Ours(act, net) => if Calls(act) { CallKeepsExplained(p, s, act, net); }
    case ServedLate(i) => if i < |s.late| { ServedKeepsWindow(s, s.late[i]); }
    case _ =>
  }

  lemma {:induction false} QuietIsLegal(p: Settings, s: System, ms: seq<Move>)
    requires QuietLegal(p, s, ms)
    ensures SystemLegal(p, s, ms)
  {
    if ms == [] {
    } else {
      QuietIsLegal(p, s, ms[..|ms| - 1]);
    }
  }

  lemma {:induction false} QuietKeepsExplained(p: Settings, start: Time, available: map<string, Time>, ms: seq<Move>)
    requires start > 0 && p.refreshInterval > 0 && QuietLegal(p, Start(start, available), ms)
    ensures Explained(SystemRun(p, Start(start, available), ms))
  {
    if ms == [] {
    } else {
      var init, m := ms[..|ms| - 1], ms[|ms| - 1];
      QuietKeepsExplained(p, start, available, init);
      QuietIsLegal(p, Start(start, available), init);
      SystemKeeps(p, start, available, init);
      NextKeepsExplained(p, SystemRun(p, Start(start, available), init), m);
    }
  }

  /** With quiet windows a verification reports a MISMATCH if and only if a late request of
      another attempt redeemed between its confirmation and its verification; and as long as
      none has, a POST whose answer arrives is accepted. */
  lemma MismatchIsAStray(p: Settings, start: Time, available: map<string, Time>, ms: seq<Move>)
    requires start > 0 && p.refreshInterval > 0 && QuietLegal(p, Start(start, available), ms)
    ensures var s := SystemRun(p, Start(start, available), ms);
      && |s.strayed| == |s.acct.verified|
      && (forall i :: 0 <= i < |s.acct.verified| ==> (s.acct.verified[i].Mismatch() <==> s.strayed[i]))
      && (s.acct.fsm.state.Resetting? && s.strays == 0 ==>
            forall e: Env :: Honest(s, e, Delivered) ==> Classify(e.consume) == Success)
  {
    QuietKeepsExplained(p, start, available, ms);
    var s := SystemRun(p, Start(start, available), ms);
    if s.acct.fsm.state.Resetting? { OwnConsumeInWindow(s.acct.fsm.attempt, s.server, s.strays); }
  }

  lemma NoStrayNoAlarm(verified: seq<Verification>, strayed: seq<bool>)
    requires AlarmsExplained(verified, strayed) && forall b :: b in strayed ==> !b
    ensures forall v :: v in verified ==> !v.Mismatch()
  {
    forall v | v in verified ensures !v.Mismatch() {
      var i :| 0 <= i < |verified| && verified[i] == v;
      assert strayed[i] in strayed;
    }
  }

  lemma {:induction false} NothingLateNoStray(p: Settings, s: System, ms: seq<Move>)
    requires s.strays == 0 && s.strayed == [] && forall i :: 0 <= i < |ms| ==> !ms[i].ServedLate?
    ensures var s' := SystemRun(p, s, ms); s'.strays == 0 && forall b :: b in s'.strayed ==> !b
  {
    if ms == [] {
    } else {
      NothingLateNoStray(p, s, ms[..|ms| - 1]);
    }
  }

  /** So when every request is served at once or never, no verification ever reports a
      MISMATCH, however many requests and responses are lost, and a POST whose answer
      arrives is always accepted. */
  lemma QuietNeverMismatches(p: Settings, start: Time, available: map<string, Time>, ms: seq<Move>)
    requires start > 0 && p.refreshInterval > 0 && QuietLegal(p, Start(start, available), ms)
    requires forall i :: 0 <= i < |ms| ==> !ms[i].ServedLate?
    ensures var s := SystemRun(p, Start(start, available), ms);
      && (forall v :: v in s.acct.verified ==> !v.Mismatch())
      && (s.acct.fsm.state.Resetting? ==>
            forall e: Env :: Honest(s, e, Delivered) ==> Classify(e.consume) == Success)
  {
    MismatchIsAStray(p, start, available, ms);
    NothingLateNoStray(p, Start(start, available), ms);
    NoStrayNoAlarm(SystemRun(p, Start(start, available), ms).acct.verified, SystemRun(p, Start(start, available), ms).strayed);
  }
}
