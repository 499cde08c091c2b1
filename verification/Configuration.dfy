// Normalising the user's configuration: floors for the durations, and a clean account list.

module Configuration {
  import opened Models

  const DEFAULT_REFRESH: int := 12 * HOUR
  const DEFAULT_LEAD: int := 6 * HOUR

  /** unicode.IsSpace. */
  predicate IsSpace(c: char) {
    var n := c as int;
    9 <= n <= 13 || n == 32 || n == 0x85 || n == 0xA0 || n == 0x1680 || 0x2000 <= n <= 0x200A
    || n == 0x2028 || n == 0x2029 || n == 0x202F || n == 0x205F || n == 0x3000
  }

  function TrimSpace(s: string): string {
    if s == "" then ""
    else if IsSpace(s[0]) then TrimSpace(s[1..])
    else if IsSpace(s[|s| - 1]) then TrimSpace(s[..|s| - 1])
    else s
  }

  /** Trimmed ids, blanks and repeats dropped, first occurrences in order. */
  function CleanIds(ids: seq<string>): seq<string> {
    if ids == [] then []
    else
      var rest, id := CleanIds(ids[..|ids| - 1]), TrimSpace(ids[|ids| - 1]);
      if id == "" || id in rest then rest else rest + [id]
  }

  function Normalize(cfg: Config): Config {
    var ids := CleanIds(cfg.enabledAccounts);
    Config(
      if cfg.refreshInterval < MINUTE then DEFAULT_REFRESH else cfg.refreshInterval,
      if cfg.triggerLeadTime < MINUTE then DEFAULT_LEAD else cfg.triggerLeadTime,
      if EnablesAll(ids) then [ALL_ACCOUNTS] else ids)
  }

  lemma {:induction false} TrimTwice(s: string)
    ensures TrimSpace(TrimSpace(s)) == TrimSpace(s)
    decreases |s|
  {
    if s == "" {
    } else {
      if IsSpace(s[0]) { TrimTwice(s[1..]); }
      else if IsSpace(s[|s| - 1]) { TrimTwice(s[..|s| - 1]); }
    }
  }

  /** Ids that need no cleaning. */
  predicate Clean(ids: seq<string>) {
    && (forall id :: id in ids ==> id != "" && TrimSpace(id) == id)
    && (forall i, j :: 0 <= i < j < |ids| ==> ids[i] != ids[j])
  }

  lemma {:induction false} CleanIdsAreClean(ids: seq<string>)
    ensures Clean(CleanIds(ids))
    ensures forall id :: id in CleanIds(ids) <==> id != "" && exists raw :: raw in ids && TrimSpace(raw) == id
  {
    if ids == [] {
    } else {
      var init, last := ids[..|ids| - 1], ids[|ids| - 1];
      CleanIdsAreClean(init);
      TrimTwice(last);
      assert ids == init + [last];
      forall id ensures id in CleanIds(ids) <==> id != "" && exists raw :: raw in ids && TrimSpace(raw) == id {
        if id != "" && exists raw :: raw in ids && TrimSpace(raw) == id {
          var raw :| raw in ids && TrimSpace(raw) == id;
          assert raw in init || raw == last;
        }
        if id in CleanIds(init) {
          var raw :| raw in init && TrimSpace(raw) == id;
          assert raw in ids;
        }
      }
    }
  }

  lemma {:induction false} CleaningCleanIds(ids: seq<string>)
    requires Clean(ids)
    ensures CleanIds(ids) == ids
  {
    if ids == [] {
    } else {
      var init := ids[..|ids| - 1];
      assert ids == init + [ids[|ids| - 1]];
      assert forall id :: id in init ==> id in ids;
      CleaningCleanIds(init);
    }
  }

  /** Whatever the user wrote: both durations come out at least a minute; the account list
      is the wildcard alone or a list without blanks, repeats or the wildcard that enables
      exactly the ids that were named; and normalising again changes nothing. */
  lemma NormalizeIsSettled(cfg: Config)
    ensures var n := Normalize(cfg);
      && n.refreshInterval >= MINUTE && n.triggerLeadTime >= MINUTE
      && Clean(n.enabledAccounts)
      && (EnablesAll(n.enabledAccounts) ==> n.enabledAccounts == [ALL_ACCOUNTS])
      && (EnablesAll(n.enabledAccounts) <==> exists raw :: raw in cfg.enabledAccounts && TrimSpace(raw) == ALL_ACCOUNTS)
      && (!EnablesAll(n.enabledAccounts) ==>
            forall id :: id in n.enabledAccounts <==> id != "" && exists raw :: raw in cfg.enabledAccounts && TrimSpace(raw) == id)
      && Normalize(n) == n
  {
    CleanIdsAreClean(cfg.enabledAccounts);
    var n := Normalize(cfg);
    assert TrimSpace(ALL_ACCOUNTS) == ALL_ACCOUNTS;
    CleaningCleanIds(n.enabledAccounts);
  }

  /** What the user set is what comes out: a duration of at least a minute is kept to the
      nanosecond, a shorter one gives way to 12 and 6 hours; and a list that needs no cleaning
      and does not name the wildcard comes back as it is, in its order. */
  lemma NormalizeKeepsSettings(cfg: Config)
    ensures var n := Normalize(cfg);
      && n.refreshInterval == (if cfg.refreshInterval >= 60 * 1_000_000_000 then cfg.refreshInterval else 12 * 3600 * 1_000_000_000)
      && n.triggerLeadTime == (if cfg.triggerLeadTime >= 60 * 1_000_000_000 then cfg.triggerLeadTime else 6 * 3600 * 1_000_000_000)
      && (Clean(cfg.enabledAccounts) && "*" !in cfg.enabledAccounts ==> n.enabledAccounts == cfg.enabledAccounts)
  {
    if Clean(cfg.enabledAccounts) { CleaningCleanIds(cfg.enabledAccounts); }
  }

  /** White space is the 25 characters of Unicode's White_Space property. */
  lemma SpacesAreUnicode(c: char)
    ensures IsSpace(c) <==>
      c in "\t\n\U{000B}\U{000C}\r \U{0085}\U{00A0}\U{1680}\U{2000}\U{2001}\U{2002}\U{2003}\U{2004}\U{2005}\U{2006}"
      || c in "\U{2007}\U{2008}\U{2009}\U{200A}\U{2028}\U{2029}\U{202F}\U{205F}\U{3000}"
  {
  }

  /** Trimming takes away exactly the white space at both ends. */
  lemma {:induction false} TrimIsMiddle(s: string) returns (i: nat, j: nat)
    ensures i <= j <= |s| && TrimSpace(s) == s[i..j]
    ensures forall k :: 0 <= k < i || j <= k < |s| ==> IsSpace(s[k])
    ensures i < j ==> !IsSpace(s[i]) && !IsSpace(s[j - 1])
    decreases |s|
  {
    if s == "" {
      i, j := 0, 0;
    } else if IsSpace(s[0]) {
      i, j := TrimIsMiddle(s[1..]);
      assert s[1..][i..j] == s[i + 1..j + 1];
      i, j := i + 1, j + 1;
    } else if IsSpace(s[|s| - 1]) {
      i, j := TrimIsMiddle(s[..|s| - 1]);
      assert s[..|s| - 1][i..j] == s[i..j];
    } else {
      i, j := 0, |s|;
    }
  }

  /** The ids come out in the order of their first mention: cleaning a longer list only adds
      ids at the end. */
  lemma {:induction false} CleaningKeepsOrder(ids: seq<string>, more: seq<string>)
    ensures CleanIds(ids) <= CleanIds(ids + more)
  {
    if more == [] {
      assert ids + more == ids;
    } else {
      CleaningKeepsOrder(ids, more[..|more| - 1]);
      assert (ids + more)[..|ids + more| - 1] == ids + more[..|more| - 1];
    }
  }

  method ConfigEnablesAll(enabled: seq<string>) returns (all: bool)
    ensures all == EnablesAll(enabled)
  {
    all := false;
    for i := 0 to |enabled|
      invariant all == EnablesAll(enabled[..i])
    {
      assert enabled[..i + 1] == enabled[..i] + [enabled[i]];
      if enabled[i] == ALL_ACCOUNTS { return true; }
    }
    assert enabled[..|enabled|] == enabled;
  }

  method NormalizeConfig(cfg: Config) returns (r: Config)
    ensures r == Normalize(cfg)
  {
    var refresh, lead := cfg.refreshInterval, cfg.triggerLeadTime;
    if refresh < MINUTE { refresh := DEFAULT_REFRESH; }
    if lead < MINUTE { lead := DEFAULT_LEAD; }
    var out: seq<string> := [];
    var seen: set<string> := {};
    var ids := cfg.enabledAccounts;
    for i := 0 to |ids|
      invariant out == CleanIds(ids[..i])
      invariant forall id :: id in seen <==> id in out
    {
      var a := TrimSpace(ids[i]);
      assert ids[..i + 1][..i] == ids[..i];
      if a == "" || a in seen { continue; }
      seen := seen + {a};
      out := out + [a];
    }
    assert ids[..|ids|] == ids;
    var all := ConfigEnablesAll(out);
    if all { out := [ALL_ACCOUNTS]; }
    r := Config(refresh, lead, out);
  }
}
