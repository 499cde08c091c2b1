// What survives any sequence of saves, boots, crashes and outside damage.

module CrashSafety {
  import opened Models
  import opened Persistence

  function Take(effs: seq<Effect>, k: nat): seq<Effect> {
    if k < |effs| then effs[..k] else effs
  }

  ghost predicate SameExcept(a: Files, b: Files, changed: set<Path>) {
    forall p :: p !in changed ==> (p in a <==> p in b) && (p in a ==> a[p] == b[p])
  }

  lemma PerformSnoc(files: Files, effs: seq<Effect>, eff: Effect)
    ensures PerformAll(files, effs + [eff]) == Perform(PerformAll(files, effs), eff)
  {
    assert (effs + [eff])[..|effs|] == effs;
  }

  /** A save is all or nothing: until its rename only the temporary file differs. */
  lemma SaveIsAtomic(files: Files, base: string, st: PluginState, k: nat)
    ensures var after := PerformAll(files, Take(SaveEffects(base, st), k));
      if k < 3 then SameExcept(files, after, {Path(base, Tmp)})
      else
        && Path(base, Main) in after && after[Path(base, Main)] == Json(st)
        && SameExcept(files, after, {Path(base, Tmp), Path(base, Main)})
  {
    var tmp := Path(base, Tmp);
    var two := [Put(tmp, Torn), Put(tmp, Json(st))];
    PerformTwo(files, two[0], two[1]);
    PerformSnoc(files, two, Rename(tmp, Path(base, Main)));
    var effs := SaveEffects(base, st);
    assert effs == two + [Rename(tmp, Path(base, Main))];
    assert k < 3 ==> effs[..k] == two[..k];
    assert two[..2] == two;
  }

  lemma BootTouchesBackup(files: Files, base: string, k: nat)
    ensures var after := PerformAll(files, Take(LoadEffects(files, base), k));
      var main, bak := Path(base, Main), Path(base, Bak);
      && SameExcept(files, after, {bak, Path(base, Quarantine)})
      && if main in files && files[main].Json? && k > 0
         then bak in after && after[bak] == (if k == 1 then Torn else files[main])
         else SameExcept(files, after, {Path(base, Quarantine)})
  {
    if Path(base, Main) in files {
      var raw := files[Path(base, Main)];
      var path := Path(base, if raw.Json? then Bak else Quarantine);
      PerformTwo(files, Put(path, Torn), Put(path, raw));
      var effs := LoadEffects(files, base);
      assert effs[..2] == effs;
    }
  }

  // ---------- histories ----------

  /** A save or a boot that got through its first effects, or damage from outside. */
  datatype Event = Saved(st: PluginState, effects: nat) | Booted(effects: nat) | Damaged(bytes: string) | Deleted

  function After(files: Files, base: string, ev: Event): Files {
    match ev
    case Saved(st, k) => PerformAll(files, Take(SaveEffects(base, st), k))
    case Booted(k) => PerformAll(files, Take(LoadEffects(files, base), k))
    case Damaged(bytes) => files[Path(base, Main) := Garbage(bytes)]
    case Deleted => files - {Path(base, Main)}
  }

  /** The disk after a history that began with no files. */
  function DiskAfter(base: string, evs: seq<Event>): Files {
    if evs == [] then map[] else After(DiskAfter(base, evs[..|evs| - 1]), base, evs[|evs| - 1])
  }

  predicate MainUsable(files: Files, base: string) {
    Path(base, Main) in files && files[Path(base, Main)].Json?
  }

  /** The event replaced or removed the main file. */
  predicate Replaced(ev: Event) {
    ev.Damaged? || ev.Deleted? || (ev.Saved? && ev.effects >= 3)
  }

  /** The main file holds the last save whose rename happened, whatever saves and boots were
      cut short after it, unless something else damaged or removed it. */
  lemma {:induction false} MainHoldsLastSave(base: string, evs: seq<Event>, i: nat)
    requires i < |evs| && evs[i].Saved? && evs[i].effects >= 3
    requires forall j :: i < j < |evs| ==> !Replaced(evs[j])
    ensures MainUsable(DiskAfter(base, evs), base) && DiskAfter(base, evs)[Path(base, Main)] == Json(evs[i].st)
  {
    var files, ev := DiskAfter(base, evs[..|evs| - 1]), evs[|evs| - 1];
    if i < |evs| - 1 { MainHoldsLastSave(base, evs[..|evs| - 1], i); }
    match ev
    case Saved(st, k) => SaveIsAtomic(files, base, st, k);
    case Booted(k) => BootTouchesBackup(files, base, k);
    case _ =>
  }

  /** So a boot starts from the last save if and only if one of its three reads of the file
      succeeds; otherwise it starts empty, whatever the disk holds. */
  lemma LoadsLastSave(base: string, evs: seq<Event>, i: nat, faults: nat, readable: bool)
    requires i < |evs| && evs[i].Saved? && evs[i].effects >= 3
    requires forall j :: i < j < |evs| ==> !Replaced(evs[j])
    ensures var r := LoadResult(DiskAfter(base, evs), base, faults, readable);
      && r == (if faults < 3 then Some(Loaded(evs[i].st, FromMain, false)) else None)
      && Started(r) == (if faults < 3 then evs[i].st else EMPTY_STATE)
  {
    MainHoldsLastSave(base, evs, i);
  }

  /** A boot that found the main file usable and at least began to rewrite the backup. */
  predicate BeginsBackup(files: Files, base: string, ev: Event) {
    ev.Booted? && ev.effects >= 1 && MainUsable(files, base)
  }

  /** The last event that began a backup, or -1. */
  function LastBackup(base: string, evs: seq<Event>): int {
    if evs == [] then -1
    else
      var init := evs[..|evs| - 1];
      if BeginsBackup(DiskAfter(base, init), base, evs[|evs| - 1]) then |evs| - 1 else LastBackup(base, init)
  }

  lemma {:induction false} LastBackupBegins(base: string, evs: seq<Event>)
    ensures var i := LastBackup(base, evs);
      -1 <= i < |evs| && (i >= 0 ==> BeginsBackup(DiskAfter(base, evs[..i]), base, evs[i]))
  {
    if evs == [] {
    } else {
      var init := evs[..|evs| - 1];
      LastBackupBegins(base, init);
      var i := LastBackup(base, init);
      if i >= 0 { assert init[..i] == evs[..i]; }
    }
  }

  lemma {:induction false} NoneAfterLastBackup(base: string, evs: seq<Event>, j: nat)
    requires LastBackup(base, evs) < j < |evs|
    ensures !BeginsBackup(DiskAfter(base, evs[..j]), base, evs[j])
  {
    var init := evs[..|evs| - 1];
    if j < |init| {
      NoneAfterLastBackup(base, init, j);
      assert init[..j] == evs[..j];
    }
  }

  /** The last backup begun decides what the backup file holds. */
  lemma {:induction false} BackupHolds(base: string, evs: seq<Event>)
    ensures var files, i, bak := DiskAfter(base, evs), LastBackup(base, evs), Path(base, Bak);
      && -1 <= i < |evs|
      && (bak in files <==> i >= 0)
      && (i >= 0 ==>
            && BeginsBackup(DiskAfter(base, evs[..i]), base, evs[i])
            && files[bak] == if evs[i].effects == 1 then Torn else DiskAfter(base, evs[..i])[Path(base, Main)])
  {
    if evs == [] {
    } else {
      var init, ev := evs[..|evs| - 1], evs[|evs| - 1];
      var files := DiskAfter(base, init);
      BackupHolds(base, init);
      if LastBackup(base, init) >= 0 { assert init[..LastBackup(base, init)] == evs[..LastBackup(base, init)]; }
      match ev
      case Saved(st, k) => SaveIsAtomic(files, base, st, k);
      case Booted(k) => BootTouchesBackup(files, base, k);
      case _ =>
    }
  }

  lemma WhatIsLastBackup(base: string, evs: seq<Event>)
    ensures var i := LastBackup(base, evs);
      && -1 <= i < |evs|
      && (i >= 0 ==> BeginsBackup(DiskAfter(base, evs[..i]), base, evs[i]))
      && forall j :: i < j < |evs| ==> !BeginsBackup(DiskAfter(base, evs[..j]), base, evs[j])
  {
    LastBackupBegins(base, evs);
    forall j | LastBackup(base, evs) < j < |evs| ensures !BeginsBackup(DiskAfter(base, evs[..j]), base, evs[j]) {
      NoneAfterLastBackup(base, evs, j);
    }
  }

  /** When the main file is missing or corrupt, a boot recovers the backup if and only if the
      last backup write that began also completed, one of the reads of the main file and the
      only read of the backup succeed; what it recovers is then the state the main file held
      when that backup was written, and otherwise it starts empty.  A backup write cut short
      destroys the older backup. */
  lemma RecoversLastBackup(base: string, evs: seq<Event>, faults: nat, readable: bool)
    requires !MainUsable(DiskAfter(base, evs), base)
    ensures var r, i := LoadResult(DiskAfter(base, evs), base, faults, readable), LastBackup(base, evs);
      && -1 <= i < |evs|
      && (i >= 0 ==> BeginsBackup(DiskAfter(base, evs[..i]), base, evs[i]))
      && (forall j :: i < j < |evs| ==> !BeginsBackup(DiskAfter(base, evs[..j]), base, evs[j]))
      && (r.Some? && r.value.source == FromBackup <==>
            faults < 3 && readable && i >= 0 && evs[i].Booted? && evs[i].effects >= 2)
      && (r.Some? && r.value.source == FromBackup ==>
            MainUsable(DiskAfter(base, evs[..i]), base) && DiskAfter(base, evs[..i])[Path(base, Main)] == Json(r.value.st))
      && (!(r.Some? && r.value.source == FromBackup) ==> Started(r) == EMPTY_STATE)
  {
    BackupHolds(base, evs);
    WhatIsLastBackup(base, evs);
  }

  /** A boot that found the main file corrupt and at least began to set it aside. */
  predicate BeginsQuarantine(files: Files, base: string, ev: Event) {
    ev.Booted? && ev.effects >= 1 && Path(base, Main) in files && !files[Path(base, Main)].Json?
  }

  lemma BootQuarantines(files: Files, base: string, k: nat)
    ensures var after := PerformAll(files, Take(LoadEffects(files, base), k));
      var main, aside := Path(base, Main), Path(base, Quarantine);
      && SameExcept(files, after, {Path(base, Bak), aside})
      && if BeginsQuarantine(files, base, Booted(k)) then
           && SameExcept(files, after, {aside})
           && aside in after && after[aside] == (if k == 1 then Torn else files[main])
         else SameExcept(files, after, {Path(base, Bak)})
  {
    if Path(base, Main) in files {
      var raw := files[Path(base, Main)];
      var path := Path(base, if raw.Json? then Bak else Quarantine);
      PerformTwo(files, Put(path, Torn), Put(path, raw));
      var effs := LoadEffects(files, base);
      assert effs[..2] == effs;
    }
  }

  /** Nothing else touches what was set aside. */
  lemma EventKeepsQuarantine(files: Files, base: string, ev: Event)
    requires !BeginsQuarantine(files, base, ev)
    ensures var aside, after := Path(base, Quarantine), After(files, base, ev);
      aside in files ==> aside in after && after[aside] == files[aside]
  {
    match ev
    case Saved(st, k) => SaveIsAtomic(files, base, st, k);
    case Booted(k) => BootQuarantines(files, base, k);
    case _ =>
  }

  /** No boot after event i sets a corrupt main file aside. */
  predicate NoneAside(base: string, evs: seq<Event>, i: nat) {
    |evs| <= i + 1 || (
      var init := evs[..|evs| - 1];
      NoneAside(base, init, i) && !BeginsQuarantine(DiskAfter(base, init), base, evs[|evs| - 1]))
  }

  /** Corrupt bytes are never destroyed silently: a boot that finds the main file corrupt, and
      gets through its two writes, has set exactly those bytes aside, and whatever is saved,
      booted, damaged or deleted later, they stay there until another boot sets a corrupt file
      aside. */
  lemma {:induction false} CorruptBytesAreKept(base: string, evs: seq<Event>, i: nat)
    requires i < |evs| && BeginsQuarantine(DiskAfter(base, evs[..i]), base, evs[i]) && evs[i].effects >= 2
    requires NoneAside(base, evs, i)
    ensures var aside := Path(base, Quarantine);
      aside in DiskAfter(base, evs) && DiskAfter(base, evs)[aside] == DiskAfter(base, evs[..i])[Path(base, Main)]
  {
    var init := evs[..|evs| - 1];
    if i < |init| {
      assert init[..i] == evs[..i];
      CorruptBytesAreKept(base, init, i);
      EventKeepsQuarantine(DiskAfter(base, init), base, evs[|init|]);
    } else {
      BootQuarantines(DiskAfter(base, init), base, evs[i].effects);
    }
  }

  lemma DiskSnoc(base: string, evs: seq<Event>, ev: Event)
    ensures DiskAfter(base, evs + [ev]) == After(DiskAfter(base, evs), base, ev)
  {
    assert (evs + [ev])[..|evs|] == evs;
  }

  lemma BackedUp(base: string, st: PluginState)
    ensures var files := DiskAfter(base, [Saved(st, 3)] + [Booted(2)]);
      && Path(base, Main) in files && files[Path(base, Main)] == Json(st)
      && Path(base, Bak) in files && files[Path(base, Bak)] == Json(st)
  {
    var saved := [Saved(st, 3)];
    DiskSnoc(base, [], Saved(st, 3));
    assert [] + [Saved(st, 3)] == saved;
    SaveIsAtomic(map[], base, st, 3);
    DiskSnoc(base, saved, Booted(2));
    BootTouchesBackup(DiskAfter(base, saved), base, 2);
  }

  /** So the promise of a one-generation fallback has two holes.  A boot stopped in the middle
      of refreshing the backup, then a damaged main file, and nothing is recovered, although
      an earlier boot had completed a backup. */
  lemma CutBackupLosesState(base: string, st: PluginState, bytes: string)
    ensures var backedUp := [Saved(st, 3)] + [Booted(2)];
      && LoadResult(DiskAfter(base, backedUp + [Damaged(bytes)]), base, 0, true) == Some(Loaded(st, FromBackup, true))
      && LoadResult(DiskAfter(base, backedUp + [Booted(1)] + [Damaged(bytes)]), base, 0, true) ==
           Some(Loaded(EMPTY_STATE, FromNothing, true))
  {
    var backedUp := [Saved(st, 3)] + [Booted(2)];
    BackedUp(base, st);
    DiskSnoc(base, backedUp, Damaged(bytes));
    DiskSnoc(base, backedUp, Booted(1));
    BootTouchesBackup(DiskAfter(base, backedUp), base, 1);
    DiskSnoc(base, backedUp + [Booted(1)], Damaged(bytes));
  }

  /** And the backup is read once, without the retries the main file gets: one transient
      failure, and a complete backup is passed over without an error. */
  lemma UnreadBackupLosesState(base: string, st: PluginState)
    ensures var files := DiskAfter(base, [Saved(st, 3)] + [Booted(2)] + [Deleted]);
      && LoadResult(files, base, 0, true) == Some(Loaded(st, FromBackup, false))
      && LoadResult(files, base, 0, false) == Some(Loaded(EMPTY_STATE, FromNothing, false))
  {
    BackedUp(base, st);
    DiskSnoc(base, [Saved(st, 3)] + [Booted(2)], Deleted);
  }

  // ---------- migrations ----------

  /** Both forward migrations of a boot, each seeing the disk the one before it left. */
  function MigrateBoth(files: Files, legacy: string, default: string, dst: string): Files {
    var first := PerformAll(files, MigrateEffects(files, legacy, dst));
    PerformAll(first, MigrateEffects(first, default, dst))
  }

  /** The same, stopped after k effects. */
  function CutMigrations(files: Files, legacy: string, default: string, dst: string, k: nat): Files {
    var effs := MigrateEffects(files, legacy, dst);
    if k <= |effs| then PerformAll(files, effs[..k])
    else
      var first := PerformAll(files, effs);
      PerformAll(first, Take(MigrateEffects(first, default, dst), k - |effs|))
  }

  predicate Migrates(files: Files, src: string, dst: string) {
    src != "" && dst != "" && src != dst && Path(src, Main) in files && Path(dst, Main) !in files
    && files[Path(src, Main)].Json?
  }

  lemma MigrateOutcome(files: Files, src: string, dst: string, k: nat)
    ensures var after := PerformAll(files, Take(MigrateEffects(files, src, dst), k));
      var from, to := Path(src, Main), Path(dst, Main);
      if !Migrates(files, src, dst) then after == files
      else if k < 3 then SameExcept(files, after, {Path(dst, Tmp)})
      else
        && to in after && after[to] == files[from]
        && if k == 3 then SameExcept(files, after, {Path(dst, Tmp), to})
           else
             && from !in after && Path(src, Migrated) in after && after[Path(src, Migrated)] == files[from]
             && SameExcept(files, after, {Path(dst, Tmp), to, from, Path(src, Migrated)})
  {
    if Migrates(files, src, dst) {
      var st := files[Path(src, Main)].st;
      var save, effs := SaveEffects(dst, st), MigrateEffects(files, src, dst);
      SaveIsAtomic(files, dst, st, k);
      SaveIsAtomic(files, dst, st, 3);
      PerformSnoc(files, save, Rename(Path(src, Main), Path(src, Migrated)));
      assert k <= 3 ==> Take(effs, k) == Take(save, k);
      assert k > 3 ==> Take(effs, k) == save + [Rename(Path(src, Main), Path(src, Migrated))];
    }
  }

  /** A source's contents are where they were, or set aside next to it. */
  predicate Preserved(files: Files, after: Files, src: string) {
    Path(src, Main) in files ==>
      (Path(src, Main) in after && after[Path(src, Main)] == files[Path(src, Main)])
      || (Path(src, Migrated) in after && after[Path(src, Migrated)] == files[Path(src, Main)])
  }

  predicate SameMain(a: Files, b: Files, base: string) {
    && (Path(base, Main) in a <==> Path(base, Main) in b)
    && (Path(base, Main) in a ==> a[Path(base, Main)] == b[Path(base, Main)])
  }

  /** After a crash at any point of the two migrations, running both again leaves exactly
      the destination a crash-free run would have, and no source has lost its contents. */
  lemma MigrationsRerunSafely(files: Files, legacy: string, default: string, dst: string, k: nat)
    requires legacy != default
    ensures var cut := CutMigrations(files, legacy, default, dst, k);
      var rerun := MigrateBoth(cut, legacy, default, dst);
      && SameMain(rerun, MigrateBoth(files, legacy, default, dst), dst)
      && (legacy != dst ==> Preserved(files, rerun, legacy))
      && (default != dst ==> Preserved(files, rerun, default))
      && (Path(dst, Main) in files ==> SameMain(rerun, files, dst))
  {
    var effs := MigrateEffects(files, legacy, dst);
    var first := PerformAll(files, effs);
    MigrateOutcome(files, legacy, dst, |effs|);
    assert effs[..|effs|] == effs;
    var cut := CutMigrations(files, legacy, default, dst, k);
    if k <= |effs| {
      MigrateOutcome(files, legacy, dst, k);
    } else {
      MigrateOutcome(first, default, dst, k - |effs|);
    }
    WholeMigration(files, legacy, dst);
    WholeMigration(first, default, dst);
    WholeMigration(cut, legacy, dst);
    WholeMigration(PerformAll(cut, MigrateEffects(cut, legacy, dst)), default, dst);
  }

  lemma WholeMigration(files: Files, src: string, dst: string)
    ensures var after := PerformAll(files, MigrateEffects(files, src, dst));
      var from, to := Path(src, Main), Path(dst, Main);
      if !Migrates(files, src, dst) then after == files
      else
        && to in after && after[to] == files[from]
        && from !in after && Path(src, Migrated) in after && after[Path(src, Migrated)] == files[from]
        && SameExcept(files, after, {Path(dst, Tmp), to, from, Path(src, Migrated)})
  {
    MigrateOutcome(files, src, dst, 4);
  }
}
