/** Rolling a failed switch back from its backup, under crashes: the procedure may stop after any
    step and is then run again from the start.  On a managed installation the service runs before
    and after the files are restored, and does with `data` what it likes while it runs. */
module Rollback {
  import opened Octets
  import opened Disk

  const WEBSERVER: Rel := ["landscape-webserver"]
  const STATIC: Rel := ["static"]
  const STATIC_ZIP: Rel := ["static.zip"]
  const GEO: Rel := ["geo_tmp"]
  const INIT_CONFIG: Rel := ["landscape_init.toml"]
  const INIT_CONFIG_TMP: Rel := ["landscape_init.tmp"]

  const EXECUTABLE: nat := 0x1ED  // 0755
  const PRIVATE: nat := 0x180  // 0600

  datatype Phase = Started | RollingBack | Failed | RolledBack

  /** The recorded installation: the version in use and its webserver binary, which stands for the
      recorded hash and size. */
  datatype InstallState = InstallState(activeVersion: string, webserver: seq<byte>)

  /** What happens outside during one attempt: the answers of the service manager and of the health
      checks, and what the running service makes of `data` (nothing, if None) until it is stopped,
      from its start to the last health check, and from there on. */
  datatype Outside = Outside(stops: bool, unitReadable: bool, starts: bool, healthy: bool,
                             untilStop: Option<Tree>, atCheck: Option<Tree>, untilEnd: Option<Tree>)
  {
    /** The service does its part: in particular it completes the initialisation that the health
        check looks for, for which a restored `data` is not enough. */
    predicate Cooperates(systemd: bool, restored: Tree) {
      unitReadable && (systemd ==> stops && starts && healthy && Initialised(Written(restored, atCheck)))
    }
  }

  function Written(data: Tree, writes: Option<Tree>): Tree {
    if writes.Some? then writes.value else data
  }

  const INIT_LOCK: Rel := ["landscape_init.lock"]
  const RUN_CONFIG: Rel := ["landscape.toml"]

  /** `init_files_present` */
  predicate Initialised(data: Tree) {
    IsFile(data, INIT_LOCK) && IsFile(data, RUN_CONFIG)
  }

  /** The check passes exactly with both files there as files, whatever else is. */
  lemma InitialisedExactly(data: Tree)
    ensures Initialised(data) <==>
              && ["landscape_init.lock"] in data && data[["landscape_init.lock"]].File?
              && ["landscape.toml"] in data && data[["landscape.toml"]].File?
  {
  }

  // ---------------------------------------------------------------- what a backup restores

  /** A backup holds the binary, the initial configuration, the static archive and the two trees. */
  predicate Complete(backup: Tree) {
    && WellFormed(backup) && IsFile(backup, WEBSERVER) && IsFile(backup, INIT_CONFIG)
    && IsFile(backup, STATIC_ZIP) && IsDir(backup, STATIC) && IsDir(backup, GEO)
    && (forall r :: r in backup ==> !backup[r].Other?)
  }

  /** Which backups are complete. */
  lemma CompleteExactly(backup: Tree)
    ensures Complete(backup) <==>
              && WellFormed(backup)
              && (forall name :: name in ["landscape-webserver", "landscape_init.toml", "static.zip"] ==>
                    [name] in backup && backup[[name]].File?)
              && (forall name :: name in ["static", "geo_tmp"] ==> [name] in backup && backup[[name]].Dir?)
              && (forall r :: r in backup ==> backup[r].Dir? || backup[r].File?)
  {
    hide WellFormed;
    assert WEBSERVER[0] in ["landscape-webserver", "landscape_init.toml", "static.zip"];
    assert INIT_CONFIG[0] in ["landscape-webserver", "landscape_init.toml", "static.zip"];
    assert STATIC_ZIP[0] in ["landscape-webserver", "landscape_init.toml", "static.zip"];
    assert STATIC[0] in ["static", "geo_tmp"] && GEO[0] in ["static", "geo_tmp"];
  }

  function ReleaseOf(backup: Tree): Tree
    requires Complete(backup)
  {
    (map[[] := Dir][WEBSERVER := backup[WEBSERVER].(mode := EXECUTABLE)] + Graft(STATIC, backup, STATIC))[
      STATIC_ZIP := backup[STATIC_ZIP]]
  }

  function DataOf(backup: Tree): Tree
    requires Complete(backup)
  {
    (map[[] := Dir] + Graft(GEO, backup, GEO))[INIT_CONFIG := File(backup[INIT_CONFIG].bytes, PRIVATE)]
  }

  /** No name of the backup's layout lies below another one. */
  lemma NamesApart(r: Rel)
    ensures STATIC <= r ==> r != [] && r != WEBSERVER && r != STATIC_ZIP
    ensures GEO <= r ==> r != [] && r != INIT_CONFIG && r != INIT_CONFIG_TMP
    ensures WEBSERVER != STATIC_ZIP && INIT_CONFIG != INIT_CONFIG_TMP
    ensures STATIC <= r ==> STATIC + r[1..] == r
    ensures GEO <= r ==> GEO + r[1..] == r
  {
    assert WEBSERVER[0][0] == 'l' && STATIC_ZIP[0][0] == 's' && STATIC[0][0] == 's' && GEO[0][0] == 'g';
    assert INIT_CONFIG[0][0] == 'l' && INIT_CONFIG_TMP[0][0] == 'l' && |INIT_CONFIG[0]| == 19;
    assert |STATIC[0]| == 6 && |STATIC_ZIP[0]| == 10;
  }

  /** The rebuilt release is exactly the backup's binary, made executable, its static archive and
      its static tree. */
  lemma ReleaseContents(backup: Tree, r: Rel)
    requires Complete(backup)
    ensures r in ReleaseOf(backup)
            <==> r == [] || r == WEBSERVER || r == STATIC_ZIP || (STATIC <= r && r in backup)
    ensures r in ReleaseOf(backup) ==>
              ReleaseOf(backup)[r] == if r == [] then Dir
                                      else if r == WEBSERVER then File(backup[r].bytes, 0x1ED)  // 0755
                                      else backup[r]
  {
    hide Graft, WellFormed;
    NamesApart(r);
    GraftHas(STATIC, backup, STATIC, r);
  }

  /** The restored data is exactly the backup's initial configuration, private, and its geo tree. */
  lemma DataContents(backup: Tree, r: Rel)
    requires Complete(backup)
    ensures r in DataOf(backup) <==> r == [] || r == INIT_CONFIG || (GEO <= r && r in backup)
    ensures r in DataOf(backup) ==>
              DataOf(backup)[r] == if r == [] then Dir
                                   else if r == INIT_CONFIG then File(backup[r].bytes, 0x180)  // 0600
                                   else backup[r]
  {
    hide Graft, WellFormed;
    NamesApart(r);
    GraftHas(GEO, backup, GEO, r);
  }

  /** Restored data is not initialised: the service has to add both files before the check passes. */
  lemma RestoredNotInitialised(backup: Tree)
    requires Complete(backup)
    ensures !Initialised(DataOf(backup)) && INIT_LOCK !in DataOf(backup) && RUN_CONFIG !in DataOf(backup)
  {
    hide Complete, DataOf;
    DataContents(backup, INIT_LOCK);
    DataContents(backup, RUN_CONFIG);
    assert |INIT_LOCK[0]| == 19 && INIT_LOCK[0][10..] == "init.lock" && INIT_CONFIG[0][10..] == "init.toml";
    assert |RUN_CONFIG[0]| == 14 && |GEO[0]| == 7;
  }

  // ---------------------------------------------------------------- what every state keeps

  /** One rollback: the version to return to, its backup, the link and the trees before it began,
      and the data as the failed version left it when it last ran on it. */
  datatype Job = Job(version: string, backup: Tree, oldCurrent: string, before: map<Place, Tree>, failed: Tree) {
    function Target(): string {
      "releases/" + version
    }
  }

  /** `ready` is history: what `data` held when everything was in place, the service not started. */
  datatype Snapshot = Snapshot(trees: map<Place, Tree>, current: string, phase: Phase, state: InstallState,
                               systemd: bool, ready: Option<Tree>)

  /** Everything restored: the service got the backup's data; where nobody manages it, `data` is
      still that. */
  predicate Restored(job: Job, s: Snapshot) {
    && Complete(job.backup)
    && Release(job.version) in s.trees && s.trees[Release(job.version)] == ReleaseOf(job.backup)
    && s.ready == Some(DataOf(job.backup))
    && (!s.systemd ==> Data in s.trees && s.trees[Data] == DataOf(job.backup))
    && s.current == job.Target()
    && s.state == InstallState(job.version, job.backup[WEBSERVER].bytes)
  }

  /** The failed version's data is where it was, or whole in `failed-data`; other releases are
      untouched. */
  ghost predicate SafeTrees(job: Job, trees: map<Place, Tree>) {
    && (if FailedData in trees then trees[FailedData] == job.failed
        else Data in trees && trees[Data] == job.failed)
    && (forall v :: v != job.version ==>
          TreeAt(trees, Release(v)) == TreeAt(job.before, Release(v)))
  }

  ghost predicate Safe(job: Job, s: Snapshot) {
    && SafeTrees(job, s.trees)
    && (s.current == job.oldCurrent || s.current == job.Target())
    && (s.phase == RolledBack ==> Restored(job, s))
  }

  /** The failed version's data after the service ran on `data` once more: changed as long as it is
      there, and out of reach once it is aside. */
  function Ran(job: Job, trees: map<Place, Tree>, writes: Option<Tree>): Job {
    if FailedData in trees then job else job.(failed := Written(job.failed, writes))
  }

  function WrittenTo(trees: map<Place, Tree>, writes: Option<Tree>): map<Place, Tree> {
    if writes.Some? then trees[Data := writes.value] else trees
  }

  lemma RunningIsSafe(job: Job, trees: map<Place, Tree>, writes: Option<Tree>)
    requires SafeTrees(job, trees)
    ensures SafeTrees(Ran(job, trees, writes), WrittenTo(trees, writes))
    ensures FailedData in WrittenTo(trees, writes) <==> FailedData in trees
  {
  }

  /** Work at any other place, or on `data` once the old one is aside, endangers nothing. */
  lemma WorkElsewhere(job: Job, before: map<Place, Tree>, after: map<Place, Tree>, p: Place)
    requires SafeTrees(job, before) && OnlyAt(before, after, p)
    requires p == Restore || p == Replaced || p == Release(job.version) || (p == Data && FailedData in before)
    ensures SafeTrees(job, after) && (FailedData in after <==> FailedData in before)
  {
    OnlyAtElsewhere(before, after, p, FailedData);
    if p != Data {
      OnlyAtElsewhere(before, after, p, Data);
    }
    forall v | v != job.version
      ensures TreeAt(after, Release(v)) == TreeAt(before, Release(v))
    {
      OnlyAtElsewhere(before, after, p, Release(v));
    }
  }

  // ---------------------------------------------------------------- moving the data aside

  /** What `move_data_aside` makes of the trees when nothing interrupts it. */
  function MovedAside(trees: map<Place, Tree>): map<Place, Tree> {
    if FailedData !in trees && Data in trees
    then trees[FailedData := trees[Data]][Data := map[[] := Dir]]
    else trees[Data := map[[] := Dir]]
  }

  /** Repeating the move keeps `failed-data` exactly when there was failed data or data to begin
      with; otherwise a second attempt takes the half-restored directory of the first for it. */
  lemma MovedAsideTwice(trees: map<Place, Tree>)
    ensures var once := MovedAside(trees);
            var twice := MovedAside(once);
            && Data in twice && twice[Data] == map[[] := Dir]
            && (TreeAt(twice, FailedData) == TreeAt(once, FailedData) && (FailedData in twice <==> FailedData in once)
                <==> FailedData in trees || Data in trees)
  {
  }

  /** `move_data_aside`, whatever happens to it. */
  method MoveDataAside(disk: FileSystem) returns (ok: bool)
    modifies disk
    ensures disk.budget <= old(disk.budget) && (!ok ==> disk.budget == 0)
    ensures ok ==> disk.trees == MovedAside(old(disk.trees))
    ensures !ok ==>
              || (OnlyAt(old(disk.trees), disk.trees, Data) && FailedData in old(disk.trees))
              || disk.trees == old(disk.trees)
              || (FailedData !in old(disk.trees) && Data in old(disk.trees)
                  && disk.trees == (old(disk.trees) - {Data})[FailedData := old(disk.trees)[Data]])
  {
    ghost var before := disk.trees;
    if FailedData in disk.trees {
      if Data in disk.trees {
        ok := disk.RemoveAll(Data);
        if !ok {
          return;
        }
      }
    } else if Data in disk.trees {
      ok := disk.Rename(Data, FailedData);
      if !ok {
        return;
      }
    }
    assert Data !in disk.trees;
    ghost var moved := disk.trees;
    ok := disk.MakeDir(Data, []);
    ghost var nothing: Tree := map[];
    assert nothing[[] := Dir] == map[[] := Dir];
    if ok {
      assert disk.trees == moved[Data := map[[] := Dir]];
      assert disk.trees == MovedAside(before);
    } else if FailedData in before {
      assert moved - {Data} == before - {Data};
    }
  }

  lemma AsideIsSafe(job: Job, trees: map<Place, Tree>)
    requires SafeTrees(job, trees)
    ensures SafeTrees(job, MovedAside(trees)) && FailedData in MovedAside(trees)
    ensures FailedData !in trees && Data in trees ==>
              SafeTrees(job, (trees - {Data})[FailedData := trees[Data]])
  {
  }

  // ---------------------------------------------------------------- unpacking and rebuilding

  lemma {:induction false} SomeTop(rest: set<Rel>, r: Rel) returns (top: Rel)
    requires r in rest
    ensures top in rest && (top == [] || top[..|top| - 1] !in rest)
    decreases |r|
  {
    if r == [] || r[..|r| - 1] !in rest {
      top := r;
    } else {
      top := SomeTop(rest, r[..|r| - 1]);
    }
  }

  function Only(t: Tree, rels: set<Rel>): Tree {
    map r | r in t && r in rels :: t[r]
  }

  lemma OneMoreUnpacked(backup: Tree, rest: set<Rel>, r: Rel)
    requires r in rest && rest <= backup.Keys
    ensures Only(backup, backup.Keys - rest)[r := backup[r]] == Only(backup, backup.Keys - (rest - {r}))
  {
  }

  /** Unpack an archive into a place that is emptied before. */
  method Unpack(disk: FileSystem, backup: Tree) returns (ok: bool)
    requires WellFormed(backup)
    modifies disk
    ensures OnlyAt(old(disk.trees), disk.trees, Restore) && disk.budget <= old(disk.budget)
    ensures ok ==> Complete(backup) && Restore in disk.trees && disk.trees[Restore] == backup
    ensures !ok ==> disk.budget == 0 || !Complete(backup)
  {
    ok := disk.RemoveAll(Restore);
    if !ok {
      return;
    }
    ok := UnpackInto(disk, backup);
    assert STATIC[..0] == [];
    if !ok {
      return;
    }
    ok := IsFile(backup, WEBSERVER) && IsFile(backup, INIT_CONFIG) && IsFile(backup, STATIC_ZIP)
          && IsDir(backup, STATIC) && IsDir(backup, GEO) && Restore in disk.trees
          && forall r | r in backup :: !backup[r].Other?;
  }

  method UnpackInto(disk: FileSystem, backup: Tree) returns (ok: bool)
    requires Restore !in disk.trees && WellFormed(backup)
    modifies disk
    ensures OnlyAt(old(disk.trees), disk.trees, Restore) && disk.budget <= old(disk.budget)
    ensures ok ==> TreeAt(disk.trees, Restore) == backup
    ensures ok && backup != map[] ==> Restore in disk.trees
    ensures !ok ==> disk.budget == 0 || exists r :: r in backup && (backup[r].Other? || (r == [] && !backup[r].Dir?))
  {
    hide Only, WellFormed;
    var rest := backup.Keys;
    NothingUnpacked(backup);
    while rest != {}
      invariant rest <= backup.Keys && disk.budget <= old(disk.budget)
      invariant OnlyAt(old(disk.trees), disk.trees, Restore)
      invariant TreeAt(disk.trees, Restore) == Only(backup, backup.Keys - rest)
    {
      ghost var r0 :| r0 in rest;
      ghost var top := SomeTop(rest, r0);
      var r :| r in rest && (r == [] || r[..|r| - 1] !in rest);
      NextMayUnpack(backup, rest, r);
      match backup[r] {
        case Dir => ok := disk.MakeDir(Restore, r);
        case File(bytes, mode) => ok := disk.WriteFile(Restore, r, bytes, mode);
        case Other => ok := false;
      }
      if !ok {
        return;
      }
      OneMoreUnpacked(backup, rest, r);
      rest := rest - {r};
    }
    AllUnpacked(backup);
    return true;
  }

  lemma NextMayUnpack(backup: Tree, rest: set<Rel>, r: Rel)
    requires WellFormed(backup) && r in rest && rest <= backup.Keys && (r == [] || r[..|r| - 1] !in rest)
    ensures MayMake(Only(backup, backup.Keys - rest), r)
    ensures !backup[r].Dir? && r != [] ==> MayWrite(Only(backup, backup.Keys - rest), r)
  {
  }

  lemma NothingUnpacked(backup: Tree)
    ensures Only(backup, backup.Keys - backup.Keys) == map[]
  {
  }

  lemma AllUnpacked(backup: Tree)
    ensures Only(backup, backup.Keys - {}) == backup
  {
  }

  /** `rebuild_release_from_backup`. */
  method RebuildRelease(disk: FileSystem, version: string, ghost backup: Tree) returns (ok: bool)
    requires Complete(backup) && TreeAt(disk.trees, Restore) == backup
    modifies disk
    ensures disk.budget <= old(disk.budget)
    ensures forall p :: p != Replaced && p != Release(version) ==>
              (p in disk.trees <==> p in old(disk.trees)) && TreeAt(disk.trees, p) == TreeAt(old(disk.trees), p)
    ensures ok ==> Release(version) in disk.trees && disk.trees[Release(version)] == ReleaseOf(backup)
    ensures !ok ==> disk.budget == 0
  {
    hide Complete, ReleaseOf, OnlyAt;
    var release := Release(version);
    ghost var t0 := disk.trees;
    if release in disk.trees {
      ok := disk.RemoveAll(Replaced);
      Untouched(t0, disk.trees, Replaced);
      if !ok {
        return;
      }
      ok := disk.Rename(release, Replaced);
      if !ok {
        return;
      }
    }
    ghost var t1 := disk.trees;
    assert release !in t1;
    ok := FillRelease(disk, release, backup);
    Untouched(t1, disk.trees, release);
  }

  lemma Untouched(before: map<Place, Tree>, after: map<Place, Tree>, p: Place)
    requires OnlyAt(before, after, p)
    ensures forall q :: q != p ==> (q in after <==> q in before) && TreeAt(after, q) == TreeAt(before, q)
  {
    forall q | q != p
      ensures (q in after <==> q in before) && TreeAt(after, q) == TreeAt(before, q)
    {
      OnlyAtElsewhere(before, after, p, q);
    }
  }

  function BinaryOnly(backup: Tree): Tree
    requires Complete(backup)
  {
    map[[] := Dir][WEBSERVER := backup[WEBSERVER].(mode := EXECUTABLE)]
  }

  /** A new release directory with the executable in it. */
  method PlaceBinary(disk: FileSystem, release: Place, restored: Tree) returns (ok: bool)
    requires release !in disk.trees
    modifies disk
    ensures OnlyAt(old(disk.trees), disk.trees, release) && disk.budget <= old(disk.budget)
    ensures ok ==> Complete(restored) ==>
              release in disk.trees && disk.trees[release] == BinaryOnly(restored)
    ensures !ok ==> disk.budget == 0 || !IsFile(restored, WEBSERVER)
  {
    hide Complete;
    ok := disk.MakeDir(release, []);
    if !ok {
      return;
    }
    if !IsFile(restored, WEBSERVER) {
      return false;
    }
    var binary := restored[WEBSERVER];
    ok := disk.WriteFile(release, WEBSERVER, binary.bytes, binary.mode);
    if !ok {
      return;
    }
    ok := disk.SetMode(release, WEBSERVER, EXECUTABLE);
    if ok {
      ghost var nothing: Tree := map[];
      assert nothing[[] := Dir][WEBSERVER := binary][WEBSERVER := binary.(mode := EXECUTABLE)]
          == map[[] := Dir][WEBSERVER := binary.(mode := EXECUTABLE)];
    }
  }

  /** The names the rebuilt directories get are free when their turn comes. */
  lemma StaticMayCopy(backup: Tree)
    requires Complete(backup)
    ensures MayCopy(backup, STATIC, BinaryOnly(backup), STATIC)
    ensures MayWrite(BinaryOnly(backup) + Graft(STATIC, backup, STATIC), STATIC_ZIP)
  {
    hide Graft, WellFormed;
    NamesApart([]);
    NamesApart(WEBSERVER);
    NamesApart(STATIC_ZIP);
    GraftHas(STATIC, backup, STATIC, []);
    GraftHas(STATIC, backup, STATIC, STATIC_ZIP);
    assert STATIC[..0] == [] && STATIC_ZIP[..0] == [];
  }

  lemma GeoMayCopy(backup: Tree)
    requires Complete(backup)
    ensures MayCopy(backup, GEO, map[[] := Dir], GEO)
    ensures var t := map[[] := Dir] + Graft(GEO, backup, GEO);
            MayWrite(t, INIT_CONFIG_TMP) && MayWrite(t, INIT_CONFIG)
            && INIT_CONFIG_TMP !in t && INIT_CONFIG_TMP != INIT_CONFIG
  {
    hide Graft, WellFormed;
    NamesApart([]);
    NamesApart(INIT_CONFIG);
    NamesApart(INIT_CONFIG_TMP);
    GraftHas(GEO, backup, GEO, []);
    GraftHas(GEO, backup, GEO, INIT_CONFIG);
    GraftHas(GEO, backup, GEO, INIT_CONFIG_TMP);
    assert GEO[..0] == [] && INIT_CONFIG[..0] == [] && INIT_CONFIG_TMP[..0] == [];
  }

  method FillRelease(disk: FileSystem, release: Place, ghost backup: Tree) returns (ok: bool)
    requires release.Release? && release !in disk.trees
    requires Complete(backup) && TreeAt(disk.trees, Restore) == backup
    modifies disk
    ensures OnlyAt(old(disk.trees), disk.trees, release) && disk.budget <= old(disk.budget)
    ensures ok ==> release in disk.trees && disk.trees[release] == ReleaseOf(backup)
    ensures !ok ==> disk.budget == 0
  {
    hide Graft, WellFormed;
    ghost var before := disk.trees;
    var restored := TreeAt(disk.trees, Restore);
    ok := PlaceBinary(disk, release, restored);
    if !ok {
      return;
    }
    Untouched(before, disk.trees, release);
    StaticMayCopy(backup);
    ok := disk.CopyTree(Restore, STATIC, release, STATIC);
    if !ok {
      return;
    }
    assert disk.trees[release] == BinaryOnly(backup) + Graft(STATIC, backup, STATIC);
    if !IsFile(restored, STATIC_ZIP) {
      return false;
    }
    ok := disk.WriteFile(release, STATIC_ZIP, restored[STATIC_ZIP].bytes, restored[STATIC_ZIP].mode);
    assert restored[STATIC_ZIP] == File(restored[STATIC_ZIP].bytes, restored[STATIC_ZIP].mode);
  }

  /** `data` gets the geo tree and the initial configuration of the backup. */
  method FillData(disk: FileSystem, ghost backup: Tree) returns (ok: bool)
    requires Complete(backup) && TreeAt(disk.trees, Restore) == backup
    requires Data in disk.trees && disk.trees[Data] == map[[] := Dir]
    modifies disk
    ensures OnlyAt(old(disk.trees), disk.trees, Data) && disk.budget <= old(disk.budget)
    ensures ok ==> Data in disk.trees && disk.trees[Data] == DataOf(backup)
    ensures !ok ==> disk.budget == 0
  {
    hide Graft, WellFormed;
    ghost var t0 := disk.trees;
    var restored := TreeAt(disk.trees, Restore);
    GeoMayCopy(backup);
    if IsDir(restored, GEO) {
      ok := disk.CopyTree(Restore, GEO, Data, GEO);
      if !ok {
        return;
      }
      Untouched(t0, disk.trees, Data);
    }
    if !IsFile(restored, INIT_CONFIG) {
      return false;
    }
    ghost var d := TreeAt(disk.trees, Data);
    ok := disk.WriteFileAtomic(Data, INIT_CONFIG_TMP, INIT_CONFIG, restored[INIT_CONFIG].bytes, PRIVATE);
    assert d - {INIT_CONFIG_TMP} == d;
  }

  // ---------------------------------------------------------------- the whole procedure

  /** A move that stopped half-way is as safe as one that never began. */
  lemma StoppedAside(job: Job, before: map<Place, Tree>, after: map<Place, Tree>)
    requires SafeTrees(job, before)
    requires || (OnlyAt(before, after, Data) && FailedData in before)
             || after == before
             || (FailedData !in before && Data in before && after == (before - {Data})[FailedData := before[Data]])
    ensures SafeTrees(job, after) && (FailedData in before ==> FailedData in after)
  {
    AsideIsSafe(job, before);
    if OnlyAt(before, after, Data) && FailedData in before {
      WorkElsewhere(job, before, after, Data);
    }
  }

  lemma ReleaseWork(job: Job, before: map<Place, Tree>, after: map<Place, Tree>)
    requires SafeTrees(job, before)
    requires forall p :: p != Replaced && p != Release(job.version) ==>
               (p in after <==> p in before) && TreeAt(after, p) == TreeAt(before, p)
    ensures SafeTrees(job, after)
    ensures forall p :: (p == Data || p == FailedData || p == Restore) && p in before ==>
              p in after && after[p] == before[p]
  {
    forall p | (p == Data || p == FailedData || p == Restore) && p in before
      ensures p in after && after[p] == before[p]
    {
      assert TreeAt(after, p) == TreeAt(before, p);
    }
  }

  class Machine {
    const disk: FileSystem
    // whether systemd manages the service
    const systemd: bool
    var current: string
    var currentTmp: Option<string>
    var phase: Phase
    var state: InstallState
    // history
    ghost var ready: Option<Tree>

    constructor (disk: FileSystem, systemd: bool, current: string, phase: Phase, state: InstallState)
      ensures this.disk == disk && State() == Snapshot(disk.trees, current, phase, state, systemd, None)
    {
      this.disk, this.systemd, this.current, this.currentTmp := disk, systemd, current, None;
      this.phase, this.state, this.ready := phase, state, None;
    }

    ghost function State(): Snapshot
      reads this, disk
    {
      Snapshot(disk.trees, current, phase, state, systemd, ready)
    }

    /** The service runs for a while. */
    method ServiceRuns(writes: Option<Tree>)
      modifies disk`trees
      ensures disk.trees == WrittenTo(old(disk.trees), if systemd then writes else None)
    {
      if systemd && writes.Some? {
        disk.trees := disk.trees[Data := writes.value];
      }
    }

    /** `mark_phase`: the transaction file is replaced at one stroke. */
    method MarkPhase(p: Phase) returns (ok: bool)
      modifies this`phase, disk`budget
      ensures phase == if ok then p else old(phase)
      ensures (ok <==> old(disk.budget) > 0) && disk.budget <= old(disk.budget)
      ensures !ok ==> disk.budget == 0
    {
      ok := disk.Tick();
      if ok {
        phase := p;
      }
    }

    method WriteState(s: InstallState) returns (ok: bool)
      modifies this`state, disk`budget
      ensures state == if ok then s else old(state)
      ensures !ok ==> disk.budget == 0
    {
      ok := disk.Tick();
      if ok {
        state := s;
      }
    }

    /** `restore_current`: a new link under a temporary name, renamed over the old one. */
    method RestoreCurrent(target: string) returns (ok: bool)
      modifies this`current, this`currentTmp, disk`budget
      ensures current == if ok then target else old(current)
      ensures !ok ==> disk.budget == 0
    {
      if currentTmp.Some? {
        ok := disk.Tick();
        if ok {
          currentTmp := None;
        }
      }
      ok := disk.Tick();
      if !ok || currentTmp.Some? {
        return false;
      }
      currentTmp := Some(target);
      ok := disk.Tick();
      if ok {
        current, currentTmp := target, None;
      }
    }

    /** Everything from the data on, up to the link. */
    method RestoreFiles(version: Option<string>, backup: Option<Tree>, ghost job: Job) returns (ok: bool)
      requires backup.Some? ==> WellFormed(backup.value) && job.backup == backup.value
      requires version.Some? ==> job.version == version.value
      requires SafeTrees(job, disk.trees) && phase != RolledBack
      modifies this`current, this`currentTmp, disk
      ensures SafeTrees(job, disk.trees) && (FailedData in old(disk.trees) ==> FailedData in disk.trees)
      ensures current == old(current) || current == job.Target()
      ensures ok ==> && FailedData in disk.trees
      ensures ok ==> && version.Some? && backup.Some? && Complete(job.backup) && current == job.Target()
                     && Restore in disk.trees && disk.trees[Restore] == job.backup
                     && Release(job.version) in disk.trees
                     && disk.trees[Release(job.version)] == ReleaseOf(job.backup)
                     && Data in disk.trees && disk.trees[Data] == DataOf(job.backup)
      ensures !ok ==> disk.budget == 0 || version.None? || backup.None? || !Complete(backup.value)
    {
      hide Graft, WellFormed, Complete, ReleaseOf, DataOf, SafeTrees, OnlyAt;
      ghost var t0 := disk.trees;
      ok := MoveDataAside(disk);
      AsideIsSafe(job, t0);
      if !ok {
        StoppedAside(job, t0, disk.trees);
        return;
      }
      ghost var t1 := disk.trees;
      if backup.None? {
        return false;
      }
      ok := Unpack(disk, backup.value);
      WorkElsewhere(job, t1, disk.trees, Restore);
      if !ok || version.None? {
        return false;
      }
      ghost var t2 := disk.trees;
      OnlyAtElsewhere(t1, t2, Restore, Data);
      OnlyAtElsewhere(t1, t2, Restore, FailedData);
      ok := RebuildRelease(disk, version.value, backup.value);
      ghost var t3 := disk.trees;
      ReleaseWork(job, t2, t3);
      if !ok {
        return;
      }
      ok := FillData(disk, backup.value);
      WorkElsewhere(job, t3, disk.trees, Data);
      OnlyAtElsewhere(t3, disk.trees, Data, Release(job.version));
      OnlyAtElsewhere(t3, disk.trees, Data, Restore);
      if !ok {
        return;
      }
      ok := RestoreCurrent("releases/" + version.value);
    }

    /** The phase is recorded and the service, which ran until then, is stopped. */
    method StopFailed(outside: Outside, ghost job: Job) returns (ok: bool, ghost job': Job)
      requires Safe(job, State())
      modifies this`phase, disk`trees, disk`budget
      ensures job' == Ran(job, old(disk.trees), if systemd then outside.untilStop else None)
      ensures job' == job.(failed := job'.failed)
      ensures Safe(job', State()) && (FailedData in old(disk.trees) ==> FailedData in disk.trees)
      ensures if ok then phase == RollingBack && (systemd ==> outside.stops)
              else disk.budget == 0 || (systemd && !outside.stops)
    {
      hide Restored, SafeTrees, WrittenTo, Ran;
      job' := Ran(job, disk.trees, if systemd then outside.untilStop else None);
      RunningIsSafe(job, disk.trees, if systemd then outside.untilStop else None);
      OnlyFailedChanges(job, disk.trees, if systemd then outside.untilStop else None);
      RestoredStays(job, job', State(), outside.untilStop);
      ServiceRuns(outside.untilStop);
      ok := MarkPhase(RollingBack);
      ok := ok && (systemd ==> outside.stops);
    }

    /** The restored version is started and watched; where nobody manages the service, nothing is. */
    method StartAndWatch(outside: Outside) returns (ok: bool)
      requires Data in disk.trees
      modifies this`phase, disk`trees, disk`budget
      ensures disk.trees == if systemd then WrittenTo(WrittenTo(old(disk.trees), outside.atCheck), outside.untilEnd)
                            else old(disk.trees)
      ensures ok <==> !systemd || (outside.starts && outside.healthy
                                   && Initialised(Written(old(disk.trees)[Data], outside.atCheck)))
      // a failed check is recorded, unless the record is interrupted; a failed start is not
      ensures if systemd && outside.starts && !ok && old(disk.budget) > 0 then phase == Failed else phase == old(phase)
      ensures disk.budget <= old(disk.budget) && (ok ==> disk.budget == old(disk.budget))
    {
      if !systemd {
        return true;
      }
      ServiceRuns(outside.atCheck);
      var initialised := Initialised(disk.trees[Data]);
      ServiceRuns(outside.untilEnd);
      if !outside.starts {
        return false;
      }
      ok := outside.healthy && initialised;
      if !ok {
        var _ := MarkPhase(Failed);
      }
    }

    /** From the start of the restored version on: it is watched, the state recorded, the phase set. */
    method Commit(version: string, webserver: seq<byte>, outside: Outside, ghost job: Job) returns (ok: bool)
      requires Complete(job.backup) && job.version == version && webserver == job.backup[WEBSERVER].bytes
      requires SafeTrees(job, disk.trees) && FailedData in disk.trees && current == job.Target() && phase == RollingBack
      requires Release(version) in disk.trees && disk.trees[Release(version)] == ReleaseOf(job.backup)
      requires Data in disk.trees && disk.trees[Data] == DataOf(job.backup)
      modifies this`phase, this`state, this`ready, disk`trees, disk`budget
      ensures Safe(job, State()) && FailedData in disk.trees
      ensures ok ==> phase == RolledBack && Restored(job, State())
      ensures ok ==> var data := DataOf(job.backup);
                     && Data in disk.trees
                     && disk.trees[Data]
                        == if systemd then Written(Written(data, outside.atCheck), outside.untilEnd) else data
      ensures var well := outside.healthy && Initialised(Written(DataOf(job.backup), outside.atCheck));
              && (ok ==> !systemd || (outside.starts && well))
              && (!ok ==> disk.budget == 0 || (systemd && !(outside.starts && well)))
              && (disk.budget > 0 && systemd && outside.starts && !well ==> phase == Failed)
    {
      hide Restored, SafeTrees, ReleaseOf, DataOf, WellFormed, Graft, Initialised, WrittenTo, Complete;
      ready := Some(disk.trees[Data]);
      OnlyDataWritten(job, disk.trees, outside.atCheck, outside.untilEnd);
      ok := StartAndWatch(outside);
      if !ok {
        return;
      }
      ok := WriteState(InstallState(version, webserver));
      if !ok {
        return;
      }
      AllRestored(job, State());
      ok := MarkPhase(RolledBack);
    }

    /** `rollback_switch`.  However it ends, the state is safe, and the failed version's data is what
        the service left when it was stopped, or had been aside before.  If it ends well everything
        was restored and the phase says so: `data` was exactly the backup's when the service got it,
        and is still where there is no service; a service has initialised it since. */
    method RollbackSwitch(version: Option<string>, backup: Option<Tree>, outside: Outside, ghost job: Job)
      returns (ok: bool, ghost job': Job)
      requires backup.Some? ==> WellFormed(backup.value) && job.backup == backup.value
      requires version.Some? ==> job.version == version.value
      requires Safe(job, State())
      modifies this, disk
      ensures job' == Ran(job, old(disk.trees), if systemd then outside.untilStop else None)
      ensures Safe(job', State()) && (FailedData in old(disk.trees) ==> FailedData in disk.trees)
      ensures ok ==> phase == RolledBack && Restored(job', State())
      ensures ok ==> var data := DataOf(job.backup);
                     && Data in disk.trees && outside.Cooperates(systemd, data)
                     && disk.trees[Data]
                        == if systemd then Written(Written(data, outside.atCheck), outside.untilEnd) else data
      ensures !ok ==> || disk.budget == 0 || version.None? || backup.None? || !Complete(backup.value)
                      || !outside.Cooperates(systemd, DataOf(backup.value))
      // with everything restored but the service unwell, the failure is recorded
      ensures disk.budget > 0 && version.Some? && backup.Some? && Complete(backup.value) && systemd
              && outside.stops && outside.unitReadable && outside.starts
              && (!outside.healthy || !Initialised(Written(DataOf(backup.value), outside.atCheck)))
              ==> phase == Failed
    {
      hide Restored, SafeTrees, ReleaseOf, DataOf, WellFormed, Graft, Initialised, WrittenTo, Ran;
      ok, job' := StopFailed(outside, job);
      if !ok {
        return;
      }
      ok := RestoreFiles(version, backup, job');
      if !ok || !outside.unitReadable {
        ok := false;
        return;
      }
      var restored := disk.trees[Restore];
      if !IsFile(restored, WEBSERVER) {
        ok := false;
        return;
      }
      ok := Commit(version.value, restored[WEBSERVER].bytes, outside, job');
    }
  }

  lemma OnlyFailedChanges(job: Job, trees: map<Place, Tree>, writes: Option<Tree>)
    ensures var job' := Ran(job, trees, writes); job' == job.(failed := job'.failed)
    ensures Ran(job, trees, None) == job && WrittenTo(trees, None) == trees
  {
  }

  /** Once the failed data is aside, a service changes nothing but `data`. */
  lemma OnlyDataWritten(job: Job, trees: map<Place, Tree>, first: Option<Tree>, second: Option<Tree>)
    requires SafeTrees(job, trees) && FailedData in trees && Data in trees
    ensures var after := WrittenTo(WrittenTo(trees, first), second);
            && SafeTrees(job, after) && Data in after && after[Data] == Written(Written(trees[Data], first), second)
            && (forall p :: p != Data && p in trees ==> p in after && after[p] == trees[p])
  {
  }

  /** What has been recorded as restored does not depend on a managed service's data. */
  lemma RestoredStays(job: Job, job': Job, s: Snapshot, writes: Option<Tree>)
    requires job' == job.(failed := job'.failed)
    ensures Restored(job, s) ==> Restored(job', s.(trees := WrittenTo(s.trees, if s.systemd then writes else None)))
  {
    hide DataOf, ReleaseOf;
  }

  lemma AllRestored(job: Job, s: Snapshot)
    requires Complete(job.backup) && s.current == job.Target()
    requires Release(job.version) in s.trees && s.trees[Release(job.version)] == ReleaseOf(job.backup)
    requires s.ready == Some(DataOf(job.backup))
    requires !s.systemd ==> Data in s.trees && s.trees[Data] == DataOf(job.backup)
    requires s.state == InstallState(job.version, job.backup[WEBSERVER].bytes)
    ensures Restored(job, s) && Restored(job, s.(phase := RolledBack))
  {
  }

  /** What the failed version made of its data by the time of the n-th attempt, if it could. */
  function LeftBy(systemd: bool, data: Tree, tries: seq<(nat, Outside)>, n: nat): Tree
    requires n <= |tries|
  {
    if n == 0 || !systemd then data
    else Written(LeftBy(systemd, data, tries, n - 1), tries[n - 1].1.untilStop)
  }

  /** Any number of attempts, each with its own crash point and its own answers from outside.  In
      the state they leave, whatever it is, the failed version's data is whole, as it stood when one
      of the attempts stopped the service; the link is the old or the new one; other releases are as
      they were; and `RolledBack` is recorded only with everything restored: the service, if there
      is one, was started on exactly the backup's data, and otherwise that is what `data` holds.  An
      attempt that nothing disturbed, with a service that initialises what it gets, completes. */
  method Attempts(m: Machine, tries: seq<(nat, Outside)>, version: string, backup: Tree) returns (done: bool)
    requires WellFormed(backup) && Data in m.disk.trees && FailedData !in m.disk.trees && m.phase != RolledBack
    modifies m, m.disk
    ensures var before, after := old(m.disk.trees), m.disk.trees;
            && (FailedData in after ==>
                  exists n :: 0 <= n <= |tries| && after[FailedData] == LeftBy(m.systemd, before[Data], tries, n))
            && (FailedData !in after ==>
                  Data in after
                  && exists n :: 0 <= n <= |tries| && after[Data] == LeftBy(m.systemd, before[Data], tries, n))
    ensures m.current == old(m.current) || m.current == "releases/" + version
    ensures forall v :: v != version ==> TreeAt(m.disk.trees, Release(v)) == TreeAt(old(m.disk.trees), Release(v))
    ensures m.phase == RolledBack ==>
              && Complete(backup) && m.current == "releases/" + version
              && m.state == InstallState(version, backup[WEBSERVER].bytes)
              && TreeAt(m.disk.trees, Release(version)) == ReleaseOf(backup)
              && m.ready == Some(DataOf(backup))
              && (!m.systemd ==> TreeAt(m.disk.trees, Data) == DataOf(backup))
    ensures done ==> m.phase == RolledBack
    ensures !done && m.disk.budget > 0 && tries != [] ==>
              !Complete(backup) || !tries[|tries| - 1].1.Cooperates(m.systemd, DataOf(backup))
  {
    hide DataOf, ReleaseOf, Complete, WellFormed;
    ghost var data := m.disk.trees[Data];
    ghost var job := Job(version, backup, m.current, m.disk.trees, data);
    ghost var n := 0;
    done := false;
    for i := 0 to |tries|
      invariant Safe(job, m.State()) && job == Job(version, backup, old(m.current), old(m.disk.trees), job.failed)
      invariant n <= i && job.failed == LeftBy(m.systemd, data, tries, n) && (FailedData !in m.disk.trees ==> n == i)
      invariant !done && m.disk.budget > 0 && i > 0 ==>
                  !Complete(backup) || !tries[i - 1].1.Cooperates(m.systemd, DataOf(backup))
    {
      m.disk.budget := tries[i].0;
      ghost var aside := FailedData in m.disk.trees;
      ghost var job';
      done, job' := m.RollbackSwitch(Some(version), Some(backup), tries[i].1, job);
      if !aside {
        n := n + 1;
      }
      job := job';
      assert job.failed == LeftBy(m.systemd, data, tries, n);
      if done {
        return;
      }
    }
  }
}
