// The state file under crashes: saving by temporary file and rename, loading with a
// one-generation backup, and the two forward migrations.

module Persistence {
  import opened Models

  /** The files kept for one location: the state itself and the siblings derived from it. */
  datatype Ext = Main | Tmp | Bak | Migrated | Quarantine
  datatype Path = Path(base: string, ext: Ext)

  /** A file's bytes: a complete serialised state, the proper prefix of a file that a crash
      leaves behind, or other bytes that do not parse. */
  datatype Raw = Json(st: PluginState) | Torn | Garbage(bytes: string)

  type Files = map<Path, Raw>

  /** What reaches the disk, in order.  A process can stop between any two effects. */
  datatype Effect = Put(path: Path, raw: Raw) | Rename(from: Path, to: Path)

  function Perform(files: Files, eff: Effect): Files {
    match eff
    case Put(path, raw) => files[path := raw]
    case Rename(from, to) => if from in files then files[to := files[from]] - {from} else files
  }

  function PerformAll(files: Files, effs: seq<Effect>): Files {
    if effs == [] then files else Perform(PerformAll(files, effs[..|effs| - 1]), effs[|effs| - 1])
  }

  /** Writing a file truncates it first. */
  function Write(path: Path, raw: Raw): seq<Effect> { [Put(path, Torn), Put(path, raw)] }

  function SaveEffects(base: string, st: PluginState): seq<Effect> {
    Write(Path(base, Tmp), Json(st)) + [Rename(Path(base, Tmp), Path(base, Main))]
  }

  function LoadEffects(files: Files, base: string): seq<Effect> {
    if Path(base, Main) !in files then []
    else
      var raw := files[Path(base, Main)];
      Write(Path(base, if raw.Json? then Bak else Quarantine), raw)
  }

  const READ_RETRIES: nat := 3

  datatype ReadResult = Bytes(raw: Raw) | NotExist | ReadError

  function Read(files: Files, path: Path, faults: nat): ReadResult {
    if faults >= READ_RETRIES then ReadError else if path in files then Bytes(files[path]) else NotExist
  }

  datatype Source = FromMain | FromBackup | FromNothing
  datatype Loaded = Loaded(st: PluginState, source: Source, corrupt: bool)

  function Load(files: Files, base: string): Loaded {
    var main, bak := Path(base, Main), Path(base, Bak);
    var corrupt := main in files && !files[main].Json?;
    if main in files && files[main].Json? then Loaded(files[main].st, FromMain, false)
    else if bak in files && files[bak].Json? then Loaded(files[bak].st, FromBackup, corrupt)
    else Loaded(EMPTY_STATE, FromNothing, corrupt)
  }

  /** What a boot gets, when the main file's reads meet this many transient failures first
      and the one read of the backup, if it comes to that, succeeds or not. */
  function LoadResult(files: Files, base: string, faults: nat, readable: bool): Option<Loaded> {
    if faults >= READ_RETRIES then None
    else Some(Load(if readable then files else files - {Path(base, Bak)}, base))
  }

  /** What the plugin goes on with: an error is logged and the state is empty. */
  function Started(r: Option<Loaded>): PluginState {
    if r.Some? then r.value.st else EMPTY_STATE
  }

  function MigrateEffects(files: Files, src: string, dst: string): seq<Effect> {
    if src == "" || dst == "" || src == dst || Path(src, Main) !in files || Path(dst, Main) in files
       || !files[Path(src, Main)].Json?
    then []
    else
      SaveEffects(dst, files[Path(src, Main)].st) + [Rename(Path(src, Main), Path(src, Migrated))]
  }

  // ---------- the code, stoppable after any number of effects ----------

  /** A disk whose process survives fuel more effects. */
  class Disk {
    var files: Files
    var fuel: nat

    constructor (files: Files, fuel: nat)
      ensures this.files == files && this.fuel == fuel
    {
      this.files, this.fuel := files, fuel;
    }

    method Effectuate(eff: Effect) returns (ok: bool)
      modifies this
      ensures ok == (old(fuel) > 0)
      ensures files == if ok then Perform(old(files), eff) else old(files)
      ensures fuel == if ok then old(fuel) - 1 else 0
    {
      ok := fuel > 0;
      if ok {
        files := Perform(files, eff);
        fuel := fuel - 1;
      }
    }

    /** The process got as far as the first effects of a list. */
    ghost predicate Stopped(before: Files, effs: seq<Effect>, had: nat)
      reads this
    {
      var done := if had < |effs| then had else |effs|;
      files == PerformAll(before, effs[..done]) && fuel == had - done
    }

    method WriteFile(path: Path, raw: Raw) returns (ok: bool)
      modifies this
      ensures Stopped(old(files), Write(path, raw), old(fuel)) && ok == (old(fuel) >= 2)
    {
      PerformTwo(files, Put(path, Torn), Put(path, raw));
      ok := Effectuate(Put(path, Torn));
      if ok { ok := Effectuate(Put(path, raw)); }
    }

    method SaveState(base: string, st: PluginState) returns (ok: bool)
      modifies this
      ensures Stopped(old(files), SaveEffects(base, st), old(fuel)) && ok == (old(fuel) >= 3)
    {
      ghost var before := files;
      var effs := SaveEffects(base, st);
      assert effs[..2] == Write(Path(base, Tmp), Json(st));
      assert effs[..3][..2] == effs[..2] && effs[..3] == effs;
      assert forall k | 0 <= k <= 2 :: effs[..k] == effs[..2][..k];
      ok := WriteFile(Path(base, Tmp), Json(st));
      if ok { ok := Effectuate(Rename(Path(base, Tmp), Path(base, Main))); }
    }

    /** Read with retries; faults: how many transient failures the attempts meet first. */
    method ReadStateFile(path: Path, faults: nat) returns (r: ReadResult)
      ensures r == Read(files, path, faults)
    {
      r := ReadError;
      for attempt := 0 to READ_RETRIES
        invariant attempt <= faults && r == ReadError
      {
        if attempt == faults {
          if path in files { return Bytes(files[path]); }
          return NotExist;
        }
      }
    }

    /** readable: whether the one attempt at the backup succeeds, if it comes to that. */
    method LoadState(base: string, faults: nat, readable: bool) returns (r: Option<Loaded>)
      modifies this
      ensures r == LoadResult(old(files), base, faults, readable)
      ensures if r.None? then files == old(files) && fuel == old(fuel)
              else Stopped(old(files), LoadEffects(old(files), base), old(fuel))
    {
      var main, bak := Path(base, Main), Path(base, Bak);
      ghost var before := files;
      assert PerformAll(before, [][..0]) == before;
      var read := ReadStateFile(main, faults);
      match read {
        case ReadError =>
          r := None;
        case NotExist =>
          var loaded := BackupOrFresh(bak, false, readable);
          r := Some(loaded);
        case Bytes(raw) =>
          if raw.Json? {
            var _ := WriteFile(bak, raw);
            r := Some(Loaded(raw.st, FromMain, false));
          } else {
            var _ := WriteFile(Path(base, Quarantine), raw);
            WritesElsewhere(before, Path(base, Quarantine), raw, bak, old(fuel));
            var loaded := BackupOrFresh(bak, true, readable);
            r := Some(loaded);
          }
      }
    }

    method BackupOrFresh(bak: Path, corrupt: bool, readable: bool) returns (r: Loaded)
      ensures r == if readable && bak in files && files[bak].Json? then Loaded(files[bak].st, FromBackup, corrupt)
                   else Loaded(EMPTY_STATE, FromNothing, corrupt)
    {
      if readable && bak in files && files[bak].Json? {
        return Loaded(files[bak].st, FromBackup, corrupt);
      }
      r := Loaded(EMPTY_STATE, FromNothing, corrupt);
    }

    method MigrateStateFile(src: string, dst: string)
      modifies this
      ensures Stopped(old(files), MigrateEffects(old(files), src, dst), old(fuel))
    {
      ghost var before := files;
      ghost var effs := MigrateEffects(before, src, dst);
      assert PerformAll(before, [][..0]) == before;
      if src == "" || dst == "" || src == dst || Path(src, Main) !in files { return; }
      if Path(dst, Main) in files { return; }
      var raw := files[Path(src, Main)];
      if !raw.Json? { return; }
      assert effs[..3] == SaveEffects(dst, raw.st);
      assert effs[..4][..3] == effs[..3] && effs[..4] == effs;
      assert forall k | 0 <= k <= 3 :: effs[..k] == effs[..3][..k];
      var ok := SaveState(dst, raw.st);
      if ok {
        var _ := Effectuate(Rename(Path(src, Main), Path(src, Migrated)));
      }
    }
  }

  /** Writing one file, however far it comes, leaves another as it was. */
  lemma WritesElsewhere(files: Files, path: Path, raw: Raw, other: Path, had: nat)
    requires path != other
    ensures var after := PerformAll(files, Write(path, raw)[..if had < 2 then had else 2]);
      (other in after <==> other in files) && (other in files ==> after[other] == files[other])
  {
    PerformTwo(files, Put(path, Torn), Put(path, raw));
  }

  lemma PerformTwo(files: Files, e1: Effect, e2: Effect)
    ensures PerformAll(files, [e1, e2][..0]) == files
    ensures PerformAll(files, [e1, e2][..1]) == Perform(files, e1)
    ensures PerformAll(files, [e1, e2][..2]) == Perform(Perform(files, e1), e2)
  {
    assert [e1, e2][..1][..0] == [];
    assert [e1, e2][..2][..1] == [e1, e2][..1];
    assert [e1, e2][..1] == [e1];
    assert [e1, e2][..2] == [e1, e2];
  }
}
