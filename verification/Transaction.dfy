/**
 The commands around the checkpoint transaction: installing with automatic
 rollback, rolling back, resuming an interrupted rollback and deleting a backup.
 */
module Transaction {
  import opened Base
  import opened FileTree
  import opened Disks
  import opened Fsutil
  import opened Layouts
  import opened PlaceOps
  import opened CheckpointSpec
  import opened RealPaths
  import opened Restore
  import opened Install

  /** Fixed by the service units (`CHECKPOINT_CONFIG_PATH`). */
  const CONFIG_PATH: Path := ["etc", "seismic", "checkpoint-start.toml"]

  datatype InstallEnd = Completed | Refusal | RolledBackAgain | RollbackFailed | Crashed

  function ProtectedPaths(live: LivePaths, backupRoot: Path): seq<Path> {
    [live.reth, live.summit, live.keys, live.checkpoint, live.config, live.weak, backupRoot]
  }

  lemma SavedPlace(live: LivePaths, backup: Path, stage: Path, p: Place)
    requires BaseIndex(p) == 6
    ensures PlacesOf(live, backup, stage)[p] == backup + Suffix(p)
  {
  }

  lemma BackupPlaces(live: LivePaths, backup: Path, stage: Path)
    ensures var at := PlacesOf(live, backup, stage);
            SharedBackup(at) && Parent(at[ReceiptFile]) == backup
  {
    hide PlacesOf;
    SavedPlace(live, backup, stage, SavedSummit);
    SavedPlace(live, backup, stage, SavedConfig);
    SavedPlace(live, backup, stage, SavedAnchor);
    SavedPlace(live, backup, stage, ReceiptFile);
  }

  /** A backup directory that does not exist holds nothing. */
  lemma NothingYet(t: Node, live: LivePaths, backup: Path, stage: Path)
    requires Get(t, backup).None?
    ensures NothingInBackup(ViewOf(t, PlacesOf(live, backup, stage)))
    ensures ReceiptFile !in ViewOf(t, PlacesOf(live, backup, stage))
  {
    hide ViewOf, Get, PlacesOf;
    var at := PlacesOf(live, backup, stage);
    forall p: Place | p in {SavedDb, SavedStatic, SavedSummit, SavedCheckpoint, SavedConfig,
                            SavedAnchor, ReceiptFile}
      ensures p !in ViewOf(t, at)
    {
      ViewLookup(t, at, p);
      SavedPlace(live, backup, stage, p);
      if Get(t, at[p]).Some? {
        Existing(t, backup, Suffix(p));
      }
    }
  }

  /** Separate paths stay separate when the backup is a child of its root. */
  lemma BackupApart(live: LivePaths, backupRoot: Path, name: Name, stage: Path)
    requires PairwiseApart(ProtectedPaths(live, backupRoot))
    requires forall p :: p in ProtectedPaths(live, backupRoot) ==> Apart(p, stage)
    ensures PairwiseApart(Bases(live, backupRoot + [name], stage))
  {
    var ps, bases := ProtectedPaths(live, backupRoot), Bases(live, backupRoot + [name], stage);
    forall i, j | 0 <= i < j < |bases|
      ensures Apart(bases[i], bases[j])
    {
      if j < 6 {
        assert Apart(ps[i], ps[j]);
      } else if j == 6 {
        assert Apart(ps[i], ps[6]);
        ApartBelow(ps[i], ps[6], [], [name]);
        assert ps[i] + [] == ps[i];
      } else if i < 6 {
        assert Apart(ps[i], stage);
      } else {
        assert Apart(ps[6], stage);
        ApartBelow(ps[6], stage, [name], []);
        assert stage + [] == stage;
      }
    }
  }

  /** The input files that exist are safely placed. */
  predicate SafeTargets(t: Node, at: Places) {
    (Get(t, at[StartConfig]).Some? ==> SafeAt(t, at, StartConfig)) &&
    (Get(t, at[Anchor]).Some? ==> SafeAt(t, at, Anchor))
  }

  /** `validate_existing_replacement_targets`, with the two required directories. */
  method ValidateTargets(d: Disk, at: Places) returns (ok: bool)
    ensures ok <==> ValidTargets(ViewOf(d.root, at)) && SafeTargets(d.root, at)
  {
    hide ViewOf;
    ViewLookup(d.root, at, RethDb);
    ViewLookup(d.root, at, RethStatic);
    ViewLookup(d.root, at, CheckpointDir);
    ViewLookup(d.root, at, StartConfig);
    ViewLookup(d.root, at, Anchor);
    ViewLookup(d.root, at, SummitStore);
    ViewLookup(d.root, at, SummitKeys);
    var db, files := Get(d.root, at[RethDb]), Get(d.root, at[RethStatic]);
    var checkpoint := Get(d.root, at[CheckpointDir]);
    var config, weak := Get(d.root, at[StartConfig]), Get(d.root, at[Anchor]);
    if (db.Some? && !db.value.Dir?) || (files.Some? && !files.value.Dir?) {
      return false;
    }
    if checkpoint.Some? && !checkpoint.value.Dir? {
      return false;
    }
    if config.Some? && !(ManagedFile(config.value) && SafeAt(d.root, at, StartConfig)) {
      return false;
    }
    if weak.Some? && !(ManagedFile(weak.value) && SafeAt(d.root, at, Anchor)) {
      return false;
    }
    return IsDir(d.root, at[SummitStore]) && IsDir(d.root, at[SummitKeys]);
  }

  /** `mode & 0o077 == 0`: nothing for the group and the others. */
  predicate PrivateDir(t: Node, p: Path) {
    IsDir(t, p) && Get(t, p).value.mode % 64 == 0
  }

  /** The backup root is, or can be made, a private directory safely placed. */
  predicate UsableRoot(t: Node, backupRoot: Path) {
    SafePath(t, backupRoot) &&
    (Get(t, backupRoot).Some? ==>
       IsDir(t, backupRoot) && Get(t, backupRoot).value.mode % 64 == 0)
  }

  /** Creating one directory is creating its path when the parent exists. */
  lemma MadeOne(t: Node, p: Path, mode: nat)
    requires p != [] && CanPut(t, p) && Get(t, p).None?
    ensures DirPath(t, p) && Put(t, p, Dir(mode, map[])) == MakeDirs(t, p, mode)
  {
    var q, n := Parent(p), p[|p| - 1];
    assert p == q + [n];
    CanPutIffParentDir(t, p);
    MakeDirsExisting(t, q, |q|, mode);
    assert q[..|q|] == q;
    DirPathExtend(t, q, n);
    MakeDirsSnoc(t, q, n, mode);
  }

  /** A directory made on the way to the receipt, seen from the places. */
  lemma MadeOnTheWay(t: Node, at: Places, p: Path)
    requires Separate(at) && Clear(t, at) && p != [] && CanPut(t, p) && Get(t, p).None?
    requires |p| < |at[ReceiptFile]| && p == at[ReceiptFile][..|p|]
    ensures var u := Put(t, p, Dir(PRIVATE_DIR, map[]));
            && Clear(u, at) && ParentsKept(t, u, at) && ViewOf(u, at) == ViewOf(t, at)
            && PrivateDir(u, p) && (forall q :: SafePath(t, q) ==> SafePath(u, q))
            && (forall n :: Get(u, p + [n]).None?)
  {
    hide ViewOf, Clear, Separate;
    MadeOne(t, p, PRIVATE_DIR);
    ViewMakeDirs(t, at, ReceiptFile, |p|, PRIVATE_DIR);
    var u := Put(t, p, Dir(PRIVATE_DIR, map[]));
    GetPutSame(t, p, Dir(PRIVATE_DIR, map[]));
    forall q | SafePath(t, q)
      ensures SafePath(u, q)
    {
      MakeDirsSafePath(t, p, PRIVATE_DIR, q);
    }
    forall n: Name
      ensures Get(u, p + [n]).None?
    {
      GetBelow(u, p, [n]);
    }
  }

  /** The missing parents of the backup root, seen from the places. */
  lemma RootParentsMade(t: Node, at: Places, backupRoot: Path, made: nat)
    requires Separate(at) && Clear(t, at) && backupRoot != [] && made <= |backupRoot| - 1
    requires |backupRoot| < |at[ReceiptFile]| && backupRoot == at[ReceiptFile][..|backupRoot|]
    requires SafePath(t, backupRoot)
    ensures DirPath(t, Parent(backupRoot)[..made])
    ensures var u := MakeDirs(t, Parent(backupRoot)[..made], DIR_MODE);
            Clear(u, at) && ParentsKept(t, u, at) && ViewOf(u, at) == ViewOf(t, at) &&
            SafePath(u, backupRoot)
  {
    hide ViewOf, Clear, Separate, Get, MakeDirs, SafePath, DirPath;
    var p := Parent(backupRoot)[..made];
    assert p == at[ReceiptFile][..made] && backupRoot == p + backupRoot[made..];
    SafeIsDirPath(t, backupRoot);
    DirPathDown(t, p, backupRoot[made..]);
    ViewMakeDirs(t, at, ReceiptFile, made, DIR_MODE);
    MakeDirsSafePath(t, p, DIR_MODE, backupRoot);
  }

  lemma RootStillMissing(t: Node, backupRoot: Path)
    requires backupRoot != [] && DirPath(t, Parent(backupRoot)) && Get(t, backupRoot).None?
    ensures var u := MakeDirs(t, Parent(backupRoot), DIR_MODE);
            Get(u, backupRoot).None? && CanPut(u, backupRoot)
  {
    hide Get, MakeDirs, DirPath, CanPut;
    var u := MakeDirs(t, Parent(backupRoot), DIR_MODE);
    MakeDirsGet(t, Parent(backupRoot), DIR_MODE, backupRoot);
    MakeDirsResult(t, Parent(backupRoot), DIR_MODE);
    CanPutIffParentDir(u, backupRoot);
  }

  /** `ensure_root_parent` for a backup root that does not exist. */
  method MakeMissingRoot(d: Disk, at: Places, backupRoot: Path) returns (r: Outcome)
    requires Separate(at) && Clear(d.root, at) && backupRoot != []
    requires |backupRoot| < |at[ReceiptFile]| && backupRoot == at[ReceiptFile][..|backupRoot|]
    requires SafePath(d.root, backupRoot) && Get(d.root, backupRoot).None?
    modifies d
    ensures Clear(d.root, at)
    ensures ParentsKept(old(d.root), d.root, at)
    ensures d.budget.Unlimited? <==> old(d.budget).Unlimited?
    ensures r == Stopped ==> !old(d.budget).Unlimited?
    ensures r != Refused
    ensures ViewOf(d.root, at) == ViewOf(old(d.root), at)
    ensures r == Done ==> PrivateDir(d.root, backupRoot) && SafePath(d.root, backupRoot)
    ensures r == Done ==> forall n :: Get(d.root, backupRoot + [n]).None?
  {
    hide ViewOf, Clear, Separate, Get, DirPath, MakeDirs, SafePath, CanPut, Put, PrivateDir;
    ghost var t, parent := d.root, Parent(backupRoot);
    assert parent[..|parent|] == parent;
    RootParentsMade(t, at, backupRoot, |parent|);
    RootStillMissing(t, backupRoot);
    ghost var made;
    r, made := d.MakeDirectories(Parent(backupRoot));
    if r != Done {
      RootParentsMade(t, at, backupRoot, made);
      return;
    }
    ghost var u := d.root;
    MadeOnTheWay(u, at, backupRoot);
    r := d.MakeDirectory(backupRoot, PRIVATE_DIR);
    if r == Done {
      ParentsKeptTransitive(t, u, d.root, at);
    }
  }

  /** `ensure_root_parent` for the backup root, and the check that it is private. */
  method MakeBackupRoot(d: Disk, at: Places, backupRoot: Path) returns (r: Outcome)
    requires Separate(at) && Clear(d.root, at) && backupRoot != []
    requires |backupRoot| < |at[ReceiptFile]| && backupRoot == at[ReceiptFile][..|backupRoot|]
    modifies d
    ensures Clear(d.root, at)
    ensures ParentsKept(old(d.root), d.root, at)
    ensures d.budget.Unlimited? <==> old(d.budget).Unlimited?
    ensures r == Stopped ==>
              !old(d.budget).Unlimited? && Get(old(d.root), backupRoot).None?
    ensures r == Refused <==> !UsableRoot(old(d.root), backupRoot)
    ensures r == Done ==> PrivateDir(d.root, backupRoot) && SafePath(d.root, backupRoot)
    ensures ViewOf(d.root, at) == ViewOf(old(d.root), at)
    ensures r == Done && Get(old(d.root), backupRoot).Some? ==> d.root == old(d.root)
    ensures r == Done && Get(old(d.root), backupRoot).None? ==>
              forall n :: Get(d.root, backupRoot + [n]).None?
  {
    hide ViewOf, Clear, Separate, Get, SafePath;
    if !SafePath(d.root, backupRoot) {
      return Refused;
    }
    if Get(d.root, backupRoot).None? {
      r := MakeMissingRoot(d, at, backupRoot);
      if r != Done {
        return;
      }
    }
    return if PrivateDir(d.root, backupRoot) then Done else Refused;
  }

  /**
   `create_backup`: a fresh directory, private like the root it is made in,
   and, before anything moves, its receipt.
   */
  method CreateBackup(d: Disk, live: LivePaths, backupRoot: Path, name: Name, stage: Path,
                      role: string, epoch: nat, hostname: string)
    returns (r: Outcome, receipt: Receipt)
    requires backupRoot != [] && Separate(PlacesOf(live, backupRoot + [name], stage))
    requires Clear(d.root, PlacesOf(live, backupRoot + [name], stage))
    requires ValidTargets(ViewOf(d.root, PlacesOf(live, backupRoot + [name], stage)))
    modifies d
    ensures var at := PlacesOf(live, backupRoot + [name], stage);
            Clear(d.root, at) && ParentsKept(old(d.root), d.root, at)
    ensures d.budget.Unlimited? <==> old(d.budget).Unlimited?
    ensures r == Stopped ==> !old(d.budget).Unlimited?
    ensures r == Refused <==>
              Get(old(d.root), backupRoot + [name]).Some? || !UsableRoot(old(d.root), backupRoot)
    ensures var at := PlacesOf(live, backupRoot + [name], stage);
            var v := ViewOf(old(d.root), at);
            if r == Done then
              && ViewOf(d.root, at) == v[ReceiptFile := File(ReceiptJson(receipt), 0x180)]
              && receipt == Receipt(Installing, role, epoch, hostname, live, FlagsOf(v))
              && NothingInBackup(v)
            else ViewOf(d.root, at) == v
    ensures r == Done ==>
              Get(d.root, backupRoot + [name]) ==
              Some(Dir(0x1C0, map["rollback-manifest.json" := File(ReceiptJson(receipt), 0x180)]))
  {
    hide ViewOf, PlacesOf, Get, DirPath, MakeDirs, Put, SafePath, CanPut, Clear, Separate,
         ValidTargets, NothingInBackup;
    var backup := backupRoot + [name];
    var at := PlacesOf(live, backup, stage);
    ghost var t := d.root;
    SavedPlace(live, backup, stage, ReceiptFile);
    assert at[ReceiptFile][..|backupRoot|] == backupRoot && at[ReceiptFile][..|backup|] == backup;
    assert Parent(at[ReceiptFile]) == backup && Parent(backup) == backupRoot;
    receipt := Receipt(Installing, role, epoch, hostname, live,
                       Previous(false, false, false, false, false));
    if Get(t, backup).Some? {
      Existing(t, backupRoot, [name]);
    }
    r := MakeBackupRoot(d, at, backupRoot);
    if r != Done {
      return;
    }
    ghost var u := d.root;
    CanPutIffParentDir(u, backup);
    if Get(u, backup).None? {
      MadeOnTheWay(u, at, backup);
      NothingYet(u, live, backup, stage);
      SafePathExtend(u, backupRoot, name);
    }
    r := d.MakeDirectory(backup, PRIVATE_DIR);
    if r != Done {
      return;
    }
    PlainTargetsExist(d.root, at);
    var prev := Previous(Exists(d.root, at[RethDb]), Exists(d.root, at[RethStatic]),
                         Exists(d.root, at[CheckpointDir]), Exists(d.root, at[StartConfig]),
                         Exists(d.root, at[Anchor]));
    receipt := receipt.(previous := prev);
    assert SafeAt(d.root, at, ReceiptFile);
    NoReceiptYet(ViewOf(t, at));
    ghost var w := d.root;
    r := WritePlace(d, at, ReceiptFile, ReceiptJson(receipt), PRIVATE_FILE);
    if r == Done {
      OnlyTheReceipt(u, w, live, backup, stage, File(ReceiptJson(receipt), PRIVATE_FILE));
    }
  }

  /** A new backup holds its receipt and nothing else. */
  lemma OnlyTheReceipt(t: Node, u: Node, live: LivePaths, backup: Path, stage: Path, x: Node)
    requires CanPut(t, backup) && u == Put(t, backup, Dir(PRIVATE_DIR, map[]))
    requires CanPut(u, PlacesOf(live, backup, stage)[ReceiptFile])
    ensures Get(Put(u, PlacesOf(live, backup, stage)[ReceiptFile], x), backup) ==
            Some(Dir(0x1C0, map["rollback-manifest.json" := x]))
  {
    hide PlacesOf, Get;
    BackupPaths(live, backup, stage);
    GetPutSame(t, backup, Dir(PRIVATE_DIR, map[]));
    GetPutAbove(u, backup, ["rollback-manifest.json"], x);
    FirstEntry(PRIVATE_DIR, "rollback-manifest.json", x);
  }

  lemma FirstEntry(mode: nat, n: Name, x: Node)
    ensures CanPut(Dir(mode, map[]), [n])
    ensures Put(Dir(mode, map[]), [n], x) == Dir(mode, map[n := x])
  {
  }

  lemma NoReceiptYet(v: View)
    ensures ReceiptFile !in v ==> !NoFileAt(v, ReceiptFile)
  {
  }

  /** On checked targets `exists` is plain presence: none of them is a link. */
  lemma PlainTargetsExist(t: Node, at: Places)
    requires ValidTargets(ViewOf(t, at))
    ensures var v := ViewOf(t, at);
            FlagsOf(v) == Previous(Exists(t, at[RethDb]), Exists(t, at[RethStatic]),
                                   Exists(t, at[CheckpointDir]), Exists(t, at[StartConfig]),
                                   Exists(t, at[Anchor]))
  {
    hide ViewOf;
    ViewLookup(t, at, RethDb);
    ViewLookup(t, at, RethStatic);
    ViewLookup(t, at, CheckpointDir);
    ViewLookup(t, at, StartConfig);
    ViewLookup(t, at, Anchor);
  }

  /** `update_receipt`: one atomic replacement. */
  method UpdateReceipt(d: Disk, at: Places, receipt: Receipt, state: ReceiptState)
    returns (r: Outcome)
    requires Separate(at) && Clear(d.root, at)
    requires ReceiptFile in ViewOf(d.root, at) && !NoFileAt(ViewOf(d.root, at), ReceiptFile)
    modifies d
    ensures Clear(d.root, at)
    ensures ParentsKept(old(d.root), d.root, at)
    ensures d.budget.Unlimited? <==> old(d.budget).Unlimited?
    ensures r == Stopped ==> !old(d.budget).Unlimited?
    ensures r != Refused
    ensures ViewOf(d.root, at) ==
            if r == Done then
              ViewOf(old(d.root), at)
                [ReceiptFile := File(ReceiptJson(receipt.(state := state)), 0x180)]
            else ViewOf(old(d.root), at)
    ensures old(d.budget) == Steps(0) ==> r != Done
  {
    ViewLookup(d.root, at, ReceiptFile);
    ClearIsSafe(d.root, at, ReceiptFile);
    r := WritePlace(d, at, ReceiptFile, ReceiptJson(receipt.(state := state)), PRIVATE_FILE);
  }

  lemma ReceiptStays(v: View, w: View, r: Receipt)
    requires ReceiptIs(v, r) && Untouched(v, w)
    ensures ReceiptIs(w, r) && SameAt(w, v, SummitKeys) && SameAt(w, v, ReceiptFile)
  {
  }

  lemma ReceiptReplaced(v: View, o: View, r: Receipt, before: View, live: LivePaths,
                        anchor: Content)
    ensures var w := v[ReceiptFile := File(ReceiptJson(r), PRIVATE_FILE)];
            && ReceiptIs(w, r) && SameAt(w, v, SummitKeys)
            && (Recoverable(w, o) <==> Recoverable(v, o))
            && (AllSaved(w, o) <==> AllSaved(v, o))
            && (Restored(w, o) <==> Restored(v, o)) && (Enterable(w) <==> Enterable(v))
            && (NewStateInstalled(w, before, live, anchor) <==>
                NewStateInstalled(v, before, live, anchor))
  {
    ReceiptWritten(v, o, File(ReceiptJson(r), PRIVATE_FILE));
  }

  /** No part of a recoverable transaction makes the live paths or the lock unusable. */
  lemma RecoverableStaysEnterable(v: View, w: View, o: View)
    requires Recoverable(v, o) && Untouched(v, w)
    ensures Enterable(v) ==> Enterable(w)
  {
    if Enterable(v) {
      EnterableStays(v, w);
    }
  }

  lemma StageBeforeInstall(v: View, w: View, x: View, live: LivePaths, anchor: Content)
    requires SameStage(v, w) && StagedReady(v)
    ensures StagedReady(w)
    ensures NewStateInstalled(x, w, live, anchor) ==> NewStateInstalled(x, v, live, anchor)
  {
  }

  /** From the durable receipt to the receipt marked `installed`. */
  method ReplaceState(d: Disk, at: Places, receipt: Receipt, anchor: Option<Content>, ghost o: View)
    returns (r: Outcome)
    requires Separate(at) && SharedBackup(at) && Clear(d.root, at)
    requires receipt.state == Installing && Honest(ViewOf(d.root, at), o, receipt)
    requires Progress(ViewOf(d.root, at), o, 0) && StagedReady(ViewOf(d.root, at))
    modifies d
    ensures Clear(d.root, at)
    ensures d.budget.Unlimited? <==> old(d.budget).Unlimited?
    ensures r == Stopped ==> !old(d.budget).Unlimited?
    ensures r == Refused ==> !SafeInputs(old(d.root), at) || anchor.None?
    ensures r == Done ==> SafeInputs(d.root, at) && anchor.Some?
    ensures Enterable(ViewOf(old(d.root), at)) ==> Enterable(ViewOf(d.root, at))
    ensures SameAt(ViewOf(d.root, at), ViewOf(old(d.root), at), SummitKeys)
    ensures r == Done ==>
              Honest(ViewOf(d.root, at), o, receipt.(state := Installed)) &&
              NewStateInstalled(ViewOf(d.root, at), ViewOf(old(d.root), at), receipt.paths,
                                anchor.value)
    ensures r != Done ==> Honest(ViewOf(d.root, at), o, receipt)
  {
    hide ViewOf, Recoverable, AllSaved, Restored, Untouched, Progress, NewStateInstalled,
         StagedReady, SameStage, FlagsOf, Enterable;
    ghost var v := ViewOf(d.root, at);
    ghost var x := if anchor.Some? then anchor.value else Bytes([]);
    r := BackUpCurrentState(d, at, receipt.previous, o);
    ghost var v1 := ViewOf(d.root, at);
    ReceiptStays(v, v1, receipt);
    RecoverableStaysEnterable(v, v1, o);
    if r != Done {
      return;
    }
    StageBeforeInstall(v, v1, v1, receipt.paths, x);
    r := InstallNewState(d, at, receipt.paths, anchor, o);
    ghost var v2 := ViewOf(d.root, at);
    StageBeforeInstall(v, v1, v2, receipt.paths, x);
    ReceiptStays(v1, v2, receipt);
    RecoverableStaysEnterable(v1, v2, o);
    if r != Done {
      return;
    }
    r := UpdateReceipt(d, at, receipt, Installed);
    ReceiptReplaced(v2, o, receipt.(state := Installed), v, receipt.paths, x);
  }

  /** The handler of a failed installation: restore, then mark the receipt. */
  method RestoreAutomatically(d: Disk, at: Places, receipt: Receipt, ghost o: View)
    returns (r: Outcome)
    requires Separate(at) && Clear(d.root, at)
    requires receipt.state == Installing && Honest(ViewOf(d.root, at), o, receipt)
    modifies d
    ensures Clear(d.root, at)
    ensures d.budget.Unlimited? <==> old(d.budget).Unlimited?
    ensures r == Stopped ==> !old(d.budget).Unlimited?
    ensures r != Refused
    ensures SameAt(ViewOf(d.root, at), ViewOf(old(d.root), at), SummitKeys)
    ensures Enterable(ViewOf(old(d.root), at)) ==> Enterable(ViewOf(d.root, at))
    ensures Honest(ViewOf(d.root, at), o,
                   if r == Done then receipt.(state := AutomaticallyRolledBack) else receipt)
  {
    r := RestoreInstalling(d, at, receipt, AutomaticallyRolledBack, o);
  }

  lemma RecoverableIsUnhindered(v: View, o: View)
    requires Recoverable(v, o)
    ensures Readable(v) && !Hindered(v, false)
  {
    KeptDoesNotCollide(v, o);
    KeptIsReadable(v, o);
  }

  /** Restore an interrupted installation and record the given final state. */
  method RestoreInstalling(d: Disk, at: Places, receipt: Receipt, final: ReceiptState,
                           ghost o: View)
    returns (r: Outcome)
    requires Separate(at) && Clear(d.root, at)
    requires receipt.state == Installing && Honest(ViewOf(d.root, at), o, receipt)
    requires final.RolledBack? || final.AutomaticallyRolledBack?
    modifies d
    ensures Clear(d.root, at)
    ensures d.budget.Unlimited? <==> old(d.budget).Unlimited?
    ensures r == Stopped ==> !old(d.budget).Unlimited?
    ensures r != Refused
    ensures SameAt(ViewOf(d.root, at), ViewOf(old(d.root), at), SummitKeys)
    ensures Enterable(ViewOf(old(d.root), at)) ==> Enterable(ViewOf(d.root, at))
    ensures Honest(ViewOf(d.root, at), o,
                   if r == Done then receipt.(state := final) else receipt)
    ensures r != Done ==> SameAt(ViewOf(d.root, at), ViewOf(old(d.root), at), ReceiptFile)
  {
    hide ViewOf, Recoverable, AllSaved, Restored, Untouched, RestoreView, Readable, Hindered,
         FlagsOf, Enterable;
    ghost var v := ViewOf(d.root, at);
    RecoverableIsUnhindered(v, o);
    RestorationUndoesInstall(v, o);
    r := RestoreBackup(d, at, receipt.previous, false, o);
    ghost var w := ViewOf(d.root, at);
    ReceiptStays(v, w, receipt);
    RecoverableStaysEnterable(v, w, o);
    if r != Done {
      return;
    }
    r := UpdateReceipt(d, at, receipt, final);
    ReceiptReplaced(w, o, receipt.(state := final), v, receipt.paths, Bytes([]));
  }

  /**
   What every end of an installation promises about the state `v` it leaves,
   `o` being the state it started from: the receipt on disk is honest about
   `o`, without a receipt nothing has changed, and the keys never change.
   */
  ghost predicate InstallPromise(o: View, v: View, end: InstallEnd, receipt: Option<Receipt>) {
    && SameAt(v, o, SummitKeys)
    && (if receipt.None? then v == o else Honest(v, o, receipt.value))
    && (end.Completed? <==> receipt.Some? && receipt.value.state == Installed)
    && (end.RolledBackAgain? <==>
        receipt.Some? && receipt.value.state == AutomaticallyRolledBack)
    && (end.RollbackFailed? ==> receipt.Some? && receipt.value.state == Installing)
    && (end.Refusal? ==> receipt.None?)
  }

  lemma PromiseKept(o: View, v: View, w: View, end: InstallEnd, receipt: Receipt)
    requires SameAt(v, o, SummitKeys) && SameAt(w, v, SummitKeys) && Honest(w, o, receipt)
    requires end.Completed? <==> receipt.state == Installed
    requires end.RolledBackAgain? <==> receipt.state == AutomaticallyRolledBack
    requires end.RollbackFailed? ==> receipt.state == Installing
    requires !end.Refusal?
    ensures InstallPromise(o, w, end, Some(receipt))
  {
    hide Honest;
  }

  lemma PromiseUnchanged(o: View, end: InstallEnd)
    requires end.Refusal? || end.Crashed?
    ensures InstallPromise(o, o, end, None)
  {
  }

  /** `install_checkpoint` once the receipt is durable. */
  method InstallWithReceipt(d: Disk, at: Places, created: Receipt, anchor: Option<Content>,
                            crash: bool, restoreBudget: Budget, ghost o: View)
    returns (end: InstallEnd, receipt: Receipt)
    requires Separate(at) && SharedBackup(at) && Clear(d.root, at)
    requires SameAt(ViewOf(d.root, at), o, SummitKeys)
    requires created.state == Installing && Honest(ViewOf(d.root, at), o, created)
    requires Progress(ViewOf(d.root, at), o, 0) && StagedReady(ViewOf(d.root, at))
    modifies d
    ensures Clear(d.root, at)
    ensures receipt == created.(state := receipt.state)
    ensures InstallPromise(o, ViewOf(d.root, at), end, Some(receipt))
    ensures end.Completed? ==>
              anchor.Some? &&
              NewStateInstalled(ViewOf(d.root, at), ViewOf(old(d.root), at), created.paths,
                                anchor.value)
    ensures old(d.budget).Unlimited? && SafeInputs(old(d.root), at) && anchor.Some? ==>
              end.Completed?
    ensures Enterable(ViewOf(old(d.root), at)) ==> Enterable(ViewOf(d.root, at))
    ensures end.Completed? ==> SafeInputs(d.root, at)
    ensures restoreBudget.Unlimited? ==> !end.RollbackFailed?
    ensures end.Crashed? ==> crash
  {
    hide ViewOf, Honest, Progress, NewStateInstalled, StagedReady, Clear, Separate, SameAt,
         InstallPromise, Enterable;
    ghost var v := ViewOf(d.root, at);
    var r := ReplaceState(d, at, created, anchor, o);
    ghost var v1 := ViewOf(d.root, at);
    if r == Done {
      receipt := created.(state := Installed);
      PromiseKept(o, v, v1, Completed, receipt);
      return Completed, receipt;
    }
    if crash && r == Stopped {
      PromiseKept(o, v, v1, Crashed, created);
      return Crashed, created;
    }
    d.budget := restoreBudget;
    r := RestoreAutomatically(d, at, created, o);
    ghost var v2 := ViewOf(d.root, at);
    KeysTransitive(v, v1, v2);
    if r == Done {
      receipt := created.(state := AutomaticallyRolledBack);
      PromiseKept(o, v, v2, RolledBackAgain, receipt);
      return RolledBackAgain, receipt;
    }
    PromiseKept(o, v, v2, RollbackFailed, created);
    return RollbackFailed, created;
  }

  lemma KeysTransitive(u: View, v: View, w: View)
    requires SameAt(v, u, SummitKeys) && SameAt(w, v, SummitKeys)
    ensures SameAt(w, u, SummitKeys)
  {
  }

  /**
   `install_checkpoint` from the path checks on, with the archive already
   extracted and accepted. The budget of `d` cuts the installation; `crash`
   says whether the cut is a crash or a raised error, and in the second case
   `restoreBudget` cuts the automatic rollback. Uncut and accepted by the
   checks, it installs the staged state.
   */
  method InstallCheckpoint(d: Disk, live: LivePaths, backupRoot: Path, name: Name, stage: Path,
                           role: string, epoch: nat, hostname: string,
                           anchor: Option<Content>,
                           crash: bool, restoreBudget: Budget)
    returns (end: InstallEnd, receipt: Option<Receipt>)
    requires forall p :: p in ProtectedPaths(live, backupRoot) ==> Apart(p, stage)
    requires Clear(d.root, PlacesOf(live, backupRoot + [name], stage))
    requires StagedReady(ViewOf(d.root, PlacesOf(live, backupRoot + [name], stage)))
    modifies d
    ensures var at := PlacesOf(live, backupRoot + [name], stage);
            var o, v := ViewOf(old(d.root), at), ViewOf(d.root, at);
            && Clear(d.root, at)
            && InstallPromise(o, v, end, receipt)
            && (end.Completed? ==>
                  anchor.Some? && NewStateInstalled(v, o, live, anchor.value) &&
                  SafeInputs(d.root, at))
            && (receipt.Some? ==> Enterable(v))
    ensures end.Completed? ==>
              anchor.Some? && InstalledAtPaths(old(d.root), d.root, live, stage, anchor.value)
    ensures if receipt.Some? then
              TargetsAtPaths(old(d.root), live) &&
              HonestAtPaths(old(d.root), d.root, live, backupRoot + [name], receipt.value)
            else RestoredAtPaths(old(d.root), d.root, live)
    ensures old(d.budget).Unlimited? && PairwiseApart(ProtectedPaths(live, backupRoot)) &&
            TargetsAtPaths(old(d.root), live) && SafePath(old(d.root), Parent(live.config)) &&
            SafePath(old(d.root), Parent(live.weak)) && anchor.Some? &&
            UsableRoot(old(d.root), backupRoot) &&
            Get(old(d.root), backupRoot + [name]).None?
            ==> end.Completed?
    ensures receipt.Some? ==>
              receipt.value == Receipt(receipt.value.state, role, epoch, hostname, live,
                                       receipt.value.previous)
    ensures receipt.Some? ==> PairwiseApart(ProtectedPaths(live, backupRoot))
    ensures restoreBudget.Unlimited? ==> !end.RollbackFailed?
    ensures end.Crashed? ==> crash
  {
    hide ViewOf, Progress, NewStateInstalled, StagedReady, FlagsOf, PlacesOf, PairwiseApart,
         ValidTargets, NothingInBackup, Get, Clear, SafeAt, UsableRoot, Separate, Honest, SameAt,
         InstallPromise, Lockable, NoLinks, TargetsAtPaths, HonestAtPaths, RestoredAtPaths,
         InstalledAtPaths, SafelyPlaced, SafePath;
    var backup := backupRoot + [name];
    var at := PlacesOf(live, backup, stage);
    ghost var t, o := d.root, ViewOf(d.root, at);
    PromiseUnchanged(o, Refusal);
    PromiseUnchanged(o, Crashed);
    UnchangedIsAtPaths(t, t, live, backup, stage);
    var ok := RequireSeparatePaths(ProtectedPaths(live, backupRoot));
    if !ok {
      return Refusal, None;
    }
    BackupApart(live, backupRoot, name, stage);
    SeparateBases(live, backup, stage);
    RootIsNotAll(live, backupRoot);
    InputsPlaced(t, live, backupRoot, name, stage);
    ok := ValidateTargets(d, at);
    if !ok {
      return Refusal, None;
    }
    ok := AcquireSummitLock(d, at);
    if !ok {
      return Refusal, None;
    }
    var r, created := CreateBackup(d, live, backupRoot, name, stage, role, epoch, hostname);
    if r != Done {
      end := if crash && r == Stopped then Crashed else Refusal;
      UnchangedIsAtPaths(t, d.root, live, backup, stage);
      return end, None;
    }
    ghost var v := ViewOf(d.root, at);
    BackupPlaces(live, backup, stage);
    ReceiptCreated(o, v, created);
    var last;
    end, last := InstallWithReceipt(d, at, created, anchor, crash, restoreBudget, o);
    if anchor.Some? {
      SameInstalled(o, v, ViewOf(d.root, at), live, anchor.value, created);
    }
    PromiseAtPaths(t, d.root, live, backup, stage, end, last);
    if end.Completed? {
      InstalledIsAtPaths(t, d.root, live, backup, stage, anchor.value);
    }
    return end, Some(last);
  }

  lemma PromiseAtPaths(t: Node, u: Node, live: LivePaths, backup: Path, stage: Path,
                       end: InstallEnd, receipt: Receipt)
    requires var at := PlacesOf(live, backup, stage);
             InstallPromise(ViewOf(t, at), ViewOf(u, at), end, Some(receipt))
    ensures HonestAtPaths(t, u, live, backup, receipt)
  {
    hide ViewOf, PlacesOf, Honest, HonestAtPaths;
    HonestIsAtPaths(t, u, live, backup, stage, receipt);
  }

  /** The checks before an installation and the safety of its inputs, at their paths. */
  lemma InputsPlaced(t: Node, live: LivePaths, backupRoot: Path, name: Name, stage: Path)
    requires PairwiseApart(ProtectedPaths(live, backupRoot))
    ensures live.config != [] && live.weak != []
    ensures var at := PlacesOf(live, backupRoot + [name], stage);
            && (TargetsAtPaths(t, live) <==>
                ValidTargets(ViewOf(t, at)) && SafeTargets(t, at) && Lockable(ViewOf(t, at)))
            && (SafeInputs(t, at) <==>
                SafePath(t, Parent(live.config)) && SafePath(t, Parent(live.weak)))
  {
    var ps := ProtectedPaths(live, backupRoot);
    assert Apart(ps[4], ps[5]);
    hide ViewOf, PlacesOf, TargetsAtPaths, ValidTargets, Lockable, SafePath, PairwiseApart, Get,
         Apart, ProtectedPaths;
    var at := PlacesOf(live, backupRoot + [name], stage);
    TargetsAreAtPaths(t, live, backupRoot + [name], stage);
    LivePlacePaths(live, backupRoot + [name], stage);
    ViewLookup(t, at, StartConfig);
    ViewLookup(t, at, Anchor);
  }

  /**
   `acquire_summit_lock`, as far as the filesystem decides: the store is a
   directory, and the lock in it is a file or still to be made.
   */
  method AcquireSummitLock(d: Disk, at: Places) returns (ok: bool)
    requires Clear(d.root, at)
    ensures ok <==> Lockable(ViewOf(d.root, at))
  {
    hide ViewOf;
    ViewLookup(d.root, at, SummitStore);
    if !IsDir(d.root, at[SummitStore]) {
      return false;
    }
    ChildPlace(d.root, at, SummitStore, LOCK);
    var lock := Get(d.root, at[SummitStore] + [LOCK]);
    return lock.None? || lock.value.File?;
  }

  /** The backup root, kept apart from other paths, is not the filesystem root. */
  lemma RootIsNotAll(live: LivePaths, backupRoot: Path)
    requires PairwiseApart(ProtectedPaths(live, backupRoot))
    ensures backupRoot != []
  {
    var ps := ProtectedPaths(live, backupRoot);
    assert Apart(ps[0], ps[6]);
  }

  lemma ReceiptCreated(o: View, v: View, r: Receipt)
    requires ValidTargets(o) && NothingInBackup(o)
    requires r.state == Installing && r.previous == FlagsOf(o)
    requires v == o[ReceiptFile := File(ReceiptJson(r), PRIVATE_FILE)]
    ensures Honest(v, o, r) && Progress(v, o, 0) && (StagedReady(o) ==> StagedReady(v))
    ensures SameAt(v, o, SummitKeys) && (Lockable(o) ==> Enterable(v))
  {
    FreshIsRecoverable(v, o);
  }

  lemma SameInstalled(o: View, v: View, w: View, live: LivePaths, anchor: Content, r: Receipt)
    requires v == o[ReceiptFile := File(ReceiptJson(r), PRIVATE_FILE)]
    ensures NewStateInstalled(w, v, live, anchor) ==> NewStateInstalled(w, o, live, anchor)
  {
  }

  // ---------------------------------------------------------------------
  // Receipts as they are read back
  // ---------------------------------------------------------------------

  function ReceiptPaths(live: LivePaths): seq<Path> {
    [live.reth, live.summit, live.keys, live.checkpoint, live.config, live.weak]
  }

  predicate ValidReceipt(r: Receipt) {
    && (r.role == "validator" || r.role == "observer") && r.hostname != ""
    && r.paths.config == ["etc", "seismic", "checkpoint-start.toml"]
    && PairwiseApart(ReceiptPaths(r.paths))
  }

  /**
   The receipt of a backup, as `read_json` accepts it: a file only its owner may
   change, below directories only their owner may change.
   */
  function StoredReceipt(t: Node, backup: Path): Option<Receipt> {
    if backup == [] || !SafePath(t, backup) then None
    else
      match Get(t, backup + Suffix(ReceiptFile))
      case Some(File(ReceiptJson(receipt), mode)) =>
        if SharedWritable(mode) then None else Some(receipt)
      case _ => None
  }

  /** The receipt file of a backup as it has to be to be read. */
  predicate ReadableReceipt(t: Node, backup: Path, r: Receipt) {
    match Get(t, backup + ["rollback-manifest.json"])
    case Some(File(ReceiptJson(stored), mode)) =>
      stored == r && (mode / 16) % 2 == 0 && (mode / 2) % 2 == 0
    case _ => false
  }

  /** Which receipt is read: the one in the backup, managed like every directory above it. */
  lemma StoredReceiptIsManaged(t: Node, backup: Path, r: Receipt)
    ensures StoredReceipt(t, backup) == Some(r) <==>
            backup != [] && ReadableReceipt(t, backup, r) &&
            forall k :: 0 <= k <= |backup| ==> NoneOrOwned(t, backup[..k])
  {
    SafePathByPrefix(t, backup);
    hide SafePath, NoneOrOwned, Get;
  }

  /** The receipts a rollback on this host accepts. */
  predicate Accepted(r: Receipt, hostname: string) {
    ValidReceipt(r) && (r.state == Installed || r.state == Installing) && r.hostname == hostname
  }

  /** Every live path that a receipt records resolves to itself. */
  predicate LinkFree(t: Node, live: LivePaths) {
    forall p :: p in ReceiptPaths(live) ==> p != [] && ResolvesToItself(t, p)
  }

  /** The stored receipt is accepted, and so are the paths it records. */
  predicate AcceptedAt(t: Node, backup: Path, hostname: string) {
    StoredReceipt(t, backup).Some? && Accepted(StoredReceipt(t, backup).value, hostname) &&
    LinkFree(t, StoredReceipt(t, backup).value.paths)
  }

  /**
   The backup, and a path for another stage, are apart from the live paths. The
   code checks this when it installs and when it deletes, not when it rolls back.
   */
  ghost predicate BackupKeptApart(live: LivePaths, backup: Path, stage: Path) {
    Apart(backup, stage) &&
    forall p :: p in ReceiptPaths(live) ==> Apart(p, backup) && Apart(p, stage)
  }

  /** `validate_rollback_receipt`: the paths of an accepted receipt make separate places. */
  method ValidateRollbackReceipt(t: Node, r: Receipt) returns (ok: bool)
    ensures ok <==> ValidReceipt(r) && LinkFree(t, r.paths)
    ensures ok ==> forall backup, stage :: BackupKeptApart(r.paths, backup, stage) ==>
              Separate(PlacesOf(r.paths, backup, stage))
  {
    hide PairwiseApart, Separate, PlacesOf, BackupKeptApart, ResolvesToItself;
    if r.role !in ROLES || r.hostname == "" {
      return false;
    }
    var paths := ReceiptPaths(r.paths);
    for i := 0 to |paths|
      invariant forall k :: 0 <= k < i ==> paths[k] != [] && ResolvesToItself(t, paths[k])
    {
      if paths[i] == [] || !ResolvesToItself(t, paths[i]) {
        assert paths[i] in ReceiptPaths(r.paths);
        return false;
      }
    }
    if r.paths.config != CONFIG_PATH {
      return false;
    }
    ok := RequireSeparatePaths(paths);
    forall backup, stage | ok && BackupKeptApart(r.paths, backup, stage)
      ensures Separate(PlacesOf(r.paths, backup, stage))
    {
      ReceiptSeparates(r, backup, stage);
    }
  }

  /** In a clear tree the recorded paths are free of links when the view shows none. */
  lemma LinkFreeIsSeen(t: Node, r: Receipt, backup: Path, stage: Path)
    requires ValidReceipt(r) && Clear(t, PlacesOf(r.paths, backup, stage))
    ensures LinkFree(t, r.paths) <==> NoLinks(ViewOf(t, PlacesOf(r.paths, backup, stage)))
  {
    hide ViewOf, ResolvesToItself, PlacesOf, PairwiseApart, Clear, LinkAt;
    var at := PlacesOf(r.paths, backup, stage);
    LivePlaces(r.paths, backup, stage);
    PathResolves(t, at, SummitStore, r.paths.summit);
    PathResolves(t, at, SummitKeys, r.paths.keys);
    PathResolves(t, at, CheckpointDir, r.paths.checkpoint);
    PathResolves(t, at, StartConfig, r.paths.config);
    PathResolves(t, at, Anchor, r.paths.weak);
    RethPathExists(r.paths);
    ClearParent(t, at, RethDb);
    DirPathResolves(t, r.paths.reth);
    SixPaths(t, r.paths);
  }

  lemma LivePlaces(live: LivePaths, backup: Path, stage: Path)
    ensures var at := PlacesOf(live, backup, stage);
            && at[SummitStore] == live.summit && at[SummitKeys] == live.keys
            && at[CheckpointDir] == live.checkpoint && at[StartConfig] == live.config
            && at[Anchor] == live.weak && at[RethDb] != [] && Parent(at[RethDb]) == live.reth
  {
    hide PlacesOf;
    PlaceAt(live, backup, stage, SummitStore);
    PlaceAt(live, backup, stage, SummitKeys);
    PlaceAt(live, backup, stage, CheckpointDir);
    PlaceAt(live, backup, stage, StartConfig);
    PlaceAt(live, backup, stage, Anchor);
    PlaceAt(live, backup, stage, RethDb);
  }

  lemma RethPathExists(live: LivePaths)
    requires PairwiseApart(ReceiptPaths(live))
    ensures live.reth != []
  {
    var ps := ReceiptPaths(live);
    assert Apart(ps[0], ps[1]);
  }

  lemma SixPaths(t: Node, live: LivePaths)
    ensures LinkFree(t, live) <==>
            && live.reth != [] && ResolvesToItself(t, live.reth)
            && live.summit != [] && ResolvesToItself(t, live.summit)
            && live.keys != [] && ResolvesToItself(t, live.keys)
            && live.checkpoint != [] && ResolvesToItself(t, live.checkpoint)
            && live.config != [] && ResolvesToItself(t, live.config)
            && live.weak != [] && ResolvesToItself(t, live.weak)
  {
    hide ResolvesToItself;
    var ps := ReceiptPaths(live);
    assert ps[0] in ps && ps[1] in ps && ps[2] in ps && ps[3] in ps && ps[4] in ps && ps[5] in ps;
  }

  lemma PathResolves(t: Node, at: Places, a: Place, p: Path)
    requires Clear(t, at) && at[a] == p
    ensures p != [] && (ResolvesToItself(t, p) <==> !LinkAt(ViewOf(t, at), a))
  {
    hide ViewOf;
    ClearParent(t, at, a);
    LinkAtTheEnd(t, p);
    ViewLookup(t, at, a);
  }

  /** A valid receipt whose backup is kept apart describes separate places. */
  lemma ReceiptSeparates(r: Receipt, backup: Path, stage: Path)
    requires ValidReceipt(r) && BackupKeptApart(r.paths, backup, stage)
    ensures Separate(PlacesOf(r.paths, backup, stage))
  {
    var ps, bases := ReceiptPaths(r.paths), Bases(r.paths, backup, stage);
    forall i, j | 0 <= i < j < |bases|
      ensures Apart(bases[i], bases[j])
    {
      if j < 6 {
        assert Apart(ps[i], ps[j]);
      } else if i < 6 {
        assert ps[i] in ps;
      }
    }
    hide PlacesOf, Separate;
    SeparateBases(r.paths, backup, stage);
  }

  /** In a clear tree the stored receipt is the one seen at its place. */
  lemma StoredIsSeen(t: Node, live: LivePaths, backup: Path, stage: Path, r: Receipt)
    requires backup != []
    requires var at := PlacesOf(live, backup, stage);
             Clear(t, at) && ReceiptIs(ViewOf(t, at), r)
    ensures StoredReceipt(t, backup) == Some(r)
  {
    hide ViewOf, PlacesOf, Get, SafePath, Clear, SharedWritable;
    var at := PlacesOf(live, backup, stage);
    ViewLookup(t, at, ReceiptFile);
    SavedPlace(live, backup, stage, ReceiptFile);
    ClearIsSafe(t, at, ReceiptFile);
    assert Parent(at[ReceiptFile]) == backup;
  }

  // ---------------------------------------------------------------------
  // Rolling back
  // ---------------------------------------------------------------------

  /** A rollback may run, for the first time or again after it was cut. */
  ghost predicate RollbackPossible(v: View, o: View, r: Receipt) {
    ReceiptIs(v, r) && r.previous == FlagsOf(o) &&
    (r.state.Installing? ==> Recoverable(v, o)) && (r.state.Installed? ==> RollbackCut(v, o))
  }

  lemma HonestIsPossible(v: View, o: View, r: Receipt)
    requires Honest(v, o, r) && RollbackEligible(r.state)
    ensures RollbackPossible(v, o, r)
    ensures r.state.Installed? ==> SummitSaved(v, o)
  {
    if r.state.Installed? {
      AllSavedIsCut(v, o);
    }
  }

  /** No new child survives a complete rollback of an installed receipt. */
  predicate NoNewChildren(v: View, o: View) {
    Entries(v, SummitStore).Keys <= Entries(o, SummitStore).Keys + {LOCK}
  }

  /** An uncut rollback of an installed receipt gets to its end. */
  predicate Unhindered(v: View) {
    Enterable(v) && !InputsBlocked(v)
  }

  /** The same, at the paths. */
  lemma UnhinderedIsAtPaths(t: Node, live: LivePaths, backup: Path, stage: Path)
    ensures Unhindered(ViewOf(t, PlacesOf(live, backup, stage))) <==>
            UnhinderedAtPaths(t, live, backup)
  {
    hide ViewOf, PlacesOf, Get, Lockable, LockableAt;
    var at := PlacesOf(live, backup, stage);
    LivePlacePaths(live, backup, stage);
    LockableIsAtPath(t, live, backup, stage);
    LockableHasStore(t, ViewOf(t, at), live.summit);
    ItemsSeen(t, live, backup, stage);
    InputsBlockedAtPaths(t, live, backup, stage);
    SeenAt(t, at, SummitStore);
    SeenAt(t, at, SummitKeys);
    hide InputsBlocked, CanBeWritten;
  }

  lemma InputsBlockedAtPaths(t: Node, live: LivePaths, backup: Path, stage: Path)
    ensures InputsBlocked(ViewOf(t, PlacesOf(live, backup, stage))) <==>
            !(CanBeWritten(t, live.config, backup + ["previous-checkpoint-start.toml"]) &&
              CanBeWritten(t, live.weak, backup + ["previous-weak-subjectivity.toml"]))
  {
    hide ViewOf, PlacesOf, Get;
    ItemsSeen(t, live, backup, stage);
    CopiesSeen(t, live, backup, stage);
  }

  lemma NoLockBlocks(v: View)
    requires HasDir(v, SummitStore) && LOCK !in Entries(v, SavedSummit)
    ensures !StoreBlocked(v, true)
  {
    StorePartEnds(v);
  }

  lemma CutIsReadable(v: View, o: View)
    requires RollbackCut(v, o) && HasDir(v, SummitStore)
    ensures Readable(v) && !StoreBlocked(v, true)
  {
    SavedSummitIsDir(v, o);
    NoLockSaved(v, o);
    NoLockBlocks(v);
    KeptIsReadable(v, o);
  }

  /**
   What a rollback of an installed receipt does from the view `v`. Done, it has
   computed the restored view and marked the receipt, and if every child was
   still saved the originals are back and nothing new is left. Otherwise the
   receipt stays, and if every child was still saved no original is lost.
   */
  ghost predicate InstalledOutcome(r: Outcome, v: View, w: View, o: View, receipt: Receipt) {
    && (r == Done ==>
          && Unhindered(v)
          && w == RestoreView(v, receipt.previous, true)
                    [ReceiptFile := File(ReceiptJson(receipt.(state := RolledBack)), PRIVATE_FILE)]
          && (SummitSaved(v, o) ==>
                Honest(w, o, receipt.(state := RolledBack)) && NoNewChildren(w, o)))
    && (r == Refused ==>
          && !Unhindered(v)
          && w == if Lockable(v) then RefusedView(v, receipt.previous, true) else v)
    && (r != Done ==> SameAt(w, v, ReceiptFile) && (SummitSaved(v, o) ==> RollbackCut(w, o)))
  }

  /** The steps of a rollback up to the first child that it moves back. */
  ghost function FirstChildCost(v: View, prev: Previous): nat
    requires HasDir(v, SummitStore)
  {
    RethCost(v, prev) + ClearCost(v) + 1
  }

  method RestoreInstalled(d: Disk, at: Places, receipt: Receipt, ghost o: View)
    returns (r: Outcome)
    requires Separate(at) && Clear(d.root, at)
    requires receipt.state == Installed && RollbackPossible(ViewOf(d.root, at), o, receipt)
    requires Enterable(ViewOf(d.root, at))
    modifies d
    ensures Clear(d.root, at)
    ensures d.budget.Unlimited? <==> old(d.budget).Unlimited?
    ensures r == Stopped ==> !old(d.budget).Unlimited?
    ensures SameAt(ViewOf(d.root, at), ViewOf(old(d.root), at), SummitKeys)
    ensures Enterable(ViewOf(old(d.root), at)) ==> Enterable(ViewOf(d.root, at))
    ensures InstalledOutcome(r, ViewOf(old(d.root), at), ViewOf(d.root, at), o, receipt)
    ensures var v := ViewOf(old(d.root), at);
            HasDir(v, SummitStore) && Entries(v, SavedSummit) != map[] &&
            old(d.budget) == Steps(FirstChildCost(v, receipt.previous)) &&
            ParentThere(old(d.root), at, RethDb) && ParentThere(old(d.root), at, RethStatic) ==>
              r != Done && CutAtFirstChild(RestoreReth(v, receipt.previous), ViewOf(d.root, at))
  {
    hide ViewOf, RollbackCut, Restored, Untouched, RestoreView, RefusedView, Readable,
         StoreBlocked, InputsBlocked, FlagsOf, RethCost, ClearCost, CutAtFirstChild, RestoreReth,
         SummitSaved, Clear, Separate, ParentThere, NoNewChildren, Honest,
         NoLinks, Lockable;
    ghost var v := ViewOf(d.root, at);
    EnterableHasStore(v);
    CutIsReadable(v, o);
    CutKeeps(v, o);
    r := RestoreBackup(d, at, receipt.previous, true, o);
    ghost var w := ViewOf(d.root, at);
    ReceiptStays(v, w, receipt);
    CutStaysEnterable(v, w, o);
    if r != Done {
      return;
    }
    r := UpdateReceipt(d, at, receipt, RolledBack);
    MarkedRolledBack(v, w, o, receipt);
  }

  lemma EnterableHasStore(v: View)
    requires Enterable(v)
    ensures HasDir(v, SummitStore) && Lockable(v)
  {
  }

  lemma CutStaysEnterable(v: View, w: View, o: View)
    requires RollbackCut(v, o) && Untouched(v, w) && Enterable(v)
    ensures Enterable(w)
  {
    NoLockSaved(v, o);
    EnterableStays(v, w);
  }

  lemma CutKeeps(v: View, o: View)
    requires RollbackCut(v, o)
    ensures ItemsKept(v, o)
  {
  }

  lemma MarkedRolledBack(v: View, w: View, o: View, receipt: Receipt)
    requires HasDir(v, SummitStore) && RollbackPossible(v, o, receipt) && receipt.state == Installed
    requires w == RestoreView(v, receipt.previous, true)
    ensures var x := w[ReceiptFile :=
                       File(ReceiptJson(receipt.(state := RolledBack)), PRIVATE_FILE)];
            && SameAt(x, w, SummitKeys) && (Enterable(w) ==> Enterable(x))
            && (SummitSaved(v, o) ==>
                  Honest(x, o, receipt.(state := RolledBack)) && NoNewChildren(x, o))
  {
    if SummitSaved(v, o) {
      RollbackNeedsEveryChild(v, o);
      RolledBackStore(v, o);
      ReceiptReplaced(w, o, receipt.(state := RolledBack), v, receipt.paths, Bytes([]));
    }
    hide RestoreView, Restored, RollbackCut, SummitSaved, FlagsOf;
  }

  lemma RolledBackStore(v: View, o: View)
    requires HasDir(v, SummitStore) && HasDir(o, SummitStore) && SummitSaved(v, o)
    ensures NoNewChildren(RestoreView(v, FlagsOf(o), true), o)
  {
    RestoredRest(v, FlagsOf(o), true);
    hide RestoreView;
    assert forall n :: n in Unlocked(o[SummitStore].entries) ==> n in o[SummitStore].entries;
  }

  /** What `rollback_checkpoint` does with an accepted receipt. */
  ghost predicate RollbackOutcome(r: Outcome, v: View, w: View, o: View, receipt: Receipt) {
    && SameAt(w, v, SummitKeys) && (Enterable(v) ==> Enterable(w))
    && (receipt.state.Installing? ==>
          (r == Refused <==> !Lockable(v)) &&
          Honest(w, o, if r == Done then receipt.(state := RolledBack) else receipt) &&
          (r != Done ==> SameAt(w, v, ReceiptFile)))
    && (receipt.state.Installed? ==> InstalledOutcome(r, v, w, o, receipt))
  }

  /** The paths of the receipt are usable, and what it says of the originals is so. */
  ghost predicate RollbackSetting(t: Node, backup: Path, stage: Path, o: View) {
    var receipt := StoredReceipt(t, backup);
    receipt.Some? &&
    var at := PlacesOf(receipt.value.paths, backup, stage);
    && BackupKeptApart(receipt.value.paths, backup, stage) && Clear(t, at)
    && RollbackPossible(ViewOf(t, at), o, receipt.value)
  }

  /**
   `rollback_checkpoint`, the services being stopped. It acts on the paths
   recorded in the receipt, and refuses a receipt that is not accepted, a live
   path that is a link, and a Summit lock that cannot be acquired, with nothing
   changed. `stage` is any other path: nothing there
   is read or written.
   */
  method RollbackCheckpoint(d: Disk, backup: Path, stage: Path, hostname: string, ghost o: View)
    returns (r: Outcome)
    requires AcceptedAt(d.root, backup, hostname) ==> RollbackSetting(d.root, backup, stage, o)
    modifies d
    ensures d.budget.Unlimited? <==> old(d.budget).Unlimited?
    ensures r == Stopped ==> !old(d.budget).Unlimited?
    ensures !AcceptedAt(old(d.root), backup, hostname) ==> r == Refused && d.root == old(d.root)
    ensures AcceptedAt(old(d.root), backup, hostname) ==>
              var receipt := StoredReceipt(old(d.root), backup).value;
              var at := PlacesOf(receipt.paths, backup, stage);
              NoLinks(ViewOf(old(d.root), at)) &&
              (!Lockable(ViewOf(old(d.root), at)) ==> r == Refused && d.root == old(d.root))
    ensures AcceptedAt(old(d.root), backup, hostname) ==>
              var receipt := StoredReceipt(old(d.root), backup).value;
              var at := PlacesOf(receipt.paths, backup, stage);
              && Clear(d.root, at)
              && RollbackOutcome(r, ViewOf(old(d.root), at), ViewOf(d.root, at), o, receipt)
              && (r == Done ==>
                    RolledBackAtPaths(old(d.root), d.root, receipt.paths, backup, receipt))
    ensures AcceptedAt(old(d.root), backup, hostname) ==>
              var receipt := StoredReceipt(old(d.root), backup).value;
              var at := PlacesOf(receipt.paths, backup, stage);
              var v := ViewOf(old(d.root), at);
              receipt.state.Installed? && Lockable(v) &&
              Entries(v, SavedSummit) != map[] &&
              old(d.budget) == Steps(FirstChildCost(v, receipt.previous)) &&
              ParentThere(old(d.root), at, RethDb) && ParentThere(old(d.root), at, RethStatic) ==>
                r != Done && CutAtFirstChild(RestoreReth(v, receipt.previous), ViewOf(d.root, at))
  {
    hide ViewOf, ValidReceipt, Clear, Separate, PlacesOf, RollbackPossible, InstalledOutcome,
         Honest, StoredReceipt, BackupKeptApart, FirstChildCost, CutAtFirstChild, RestoreReth,
         ParentThere, LinkFree, NoLinks, Lockable, RolledBackAtPaths;
    ghost var t := d.root;
    var stored := StoredReceipt(d.root, backup);
    if stored.None? {
      return Refused;
    }
    var receipt := stored.value;
    var ok := ValidateRollbackReceipt(d.root, receipt);
    if !ok || !RollbackEligible(receipt.state) || receipt.hostname != hostname {
      return Refused;
    }
    var at := PlacesOf(receipt.paths, backup, stage);
    ghost var v := ViewOf(d.root, at);
    assert Separate(at);
    LinkFreeIsSeen(d.root, receipt, backup, stage);
    ok := AcquireSummitLock(d, at);
    if !ok {
      RefusedAtLock(v, o, receipt);
      return Refused;
    }
    EnterableHasStore(v);
    if receipt.state.Installing? {
      PossibleIsHonest(v, o, receipt);
      r := RestoreInstalling(d, at, receipt, RolledBack, o);
    } else {
      r := RestoreInstalled(d, at, receipt, o);
    }
    if r == Done {
      OutcomeAtPaths(t, d.root, backup, stage, o, receipt);
    }
  }

  /** What a finished rollback has done, at its paths. */
  lemma OutcomeAtPaths(t: Node, u: Node, backup: Path, stage: Path, o: View, receipt: Receipt)
    requires RollbackEligible(receipt.state)
    requires var at := PlacesOf(receipt.paths, backup, stage);
             && RollbackPossible(ViewOf(t, at), o, receipt)
             && RollbackOutcome(Done, ViewOf(t, at), ViewOf(u, at), o, receipt)
    ensures RolledBackAtPaths(t, u, receipt.paths, backup, receipt)
  {
    var at := PlacesOf(receipt.paths, backup, stage);
    var v, w := ViewOf(t, at), ViewOf(u, at);
    hide ViewOf, PlacesOf, Honest, RolledBackAtPaths, RollbackCut, RestoreView, RolledBackItems;
    if receipt.state.Installing? {
      PossibleIsHonest(v, o, receipt);
      InstallingRolledBack(v, w, o, receipt);
    } else {
      UnhinderedHasStore(v);
      SavedSummitIsDir(v, o);
      InstalledRolledBack(v, w, receipt);
    }
    RolledBackIsAtPaths(t, u, receipt.paths, backup, stage, receipt);
  }

  /** A rollback refused at the lock has done nothing. */
  lemma RefusedAtLock(v: View, o: View, r: Receipt)
    requires RollbackPossible(v, o, r) && !Lockable(v)
    ensures RollbackOutcome(Refused, v, v, o, r)
  {
    if r.state.Installing? {
      PossibleIsHonest(v, o, r);
    }
  }

  lemma PossibleIsHonest(v: View, o: View, r: Receipt)
    requires RollbackPossible(v, o, r) && r.state.Installing?
    ensures Honest(v, o, r)
  {
  }

  /** A rollback that was cut leaves the same receipt, and may be run again. */
  lemma SettingStays(t: Node, u: Node, backup: Path, stage: Path, o: View, hostname: string)
    requires StoredReceipt(t, backup).Some? && RollbackSetting(t, backup, stage, o)
    requires Accepted(StoredReceipt(t, backup).value, hostname)
    requires var receipt := StoredReceipt(t, backup).value;
             var at := PlacesOf(receipt.paths, backup, stage);
             Clear(u, at) && RollbackPossible(ViewOf(u, at), o, receipt)
    ensures StoredReceipt(u, backup) == StoredReceipt(t, backup)
    ensures RollbackSetting(u, backup, stage, o)
    ensures var at := PlacesOf(StoredReceipt(t, backup).value.paths, backup, stage);
            AcceptedAt(u, backup, hostname) <==> NoLinks(ViewOf(u, at))
  {
    var receipt := StoredReceipt(t, backup).value;
    assert backup != [];
    hide ViewOf, PlacesOf, Clear, RollbackPossible, StoredReceipt, BackupKeptApart, ValidReceipt,
         LinkFree, NoLinks;
    PossibleReceipt(ViewOf(u, PlacesOf(receipt.paths, backup, stage)), o, receipt);
    StoredIsSeen(u, receipt.paths, backup, stage, receipt);
    LinkFreeIsSeen(u, receipt, backup, stage);
  }

  lemma PossibleReceipt(v: View, o: View, r: Receipt)
    requires RollbackPossible(v, o, r)
    ensures ReceiptIs(v, r)
  {
  }

  /**
   An operator resuming an interrupted installation: rollbacks cut after any
   numbers of steps, then one that is not cut. No attempt is refused, and the
   original items come back.
   */
  method ResumeRollback(d: Disk, backup: Path, stage: Path, hostname: string, cuts: seq<nat>,
                        ghost receipt: Receipt, ghost o: View)
    requires StoredReceipt(d.root, backup) == Some(receipt) && receipt.state.Installing?
    requires AcceptedAt(d.root, backup, hostname) && RollbackSetting(d.root, backup, stage, o)
    requires Lockable(ViewOf(d.root, PlacesOf(receipt.paths, backup, stage)))
    modifies d
    ensures var at := PlacesOf(receipt.paths, backup, stage);
            && SameAt(ViewOf(d.root, at), ViewOf(old(d.root), at), SummitKeys)
            && Honest(ViewOf(d.root, at), o, receipt.(state := RolledBack))
            && Restored(ViewOf(d.root, at), o)
  {
    hide ViewOf, PlacesOf, ValidReceipt, Clear, RollbackPossible, Honest, SameAt, Restored,
         StoredReceipt, BackupKeptApart, LinkFree, NoLinks, Lockable;
    ghost var t := d.root;
    ghost var at := PlacesOf(receipt.paths, backup, stage);
    ghost var v := ViewOf(t, at);
    SameKeysAsItself(v);
    for i := 0 to |cuts|
      invariant StoredReceipt(d.root, backup) == Some(receipt)
      invariant AcceptedAt(d.root, backup, hostname) && RollbackSetting(d.root, backup, stage, o)
      invariant Lockable(ViewOf(d.root, at))
      invariant SameAt(ViewOf(d.root, at), v, SummitKeys)
    {
      ghost var u := d.root;
      d.budget := Steps(cuts[i]);
      var r := RollbackCheckpoint(d, backup, stage, hostname, o);
      KeysTransitive(v, ViewOf(u, at), ViewOf(d.root, at));
      if r == Done {
        RolledBackIsRestored(ViewOf(d.root, at), o, receipt.(state := RolledBack));
        return;
      }
      HonestIsPossible(ViewOf(d.root, at), o, receipt);
      SettingStays(u, d.root, backup, stage, o, hostname);
    }
    ghost var u := d.root;
    d.budget := Unlimited;
    var r := RollbackCheckpoint(d, backup, stage, hostname, o);
    KeysTransitive(v, ViewOf(u, at), ViewOf(d.root, at));
    RolledBackIsRestored(ViewOf(d.root, at), o, receipt.(state := RolledBack));
  }

  lemma SameKeysAsItself(v: View)
    ensures SameAt(v, v, SummitKeys)
  {
  }

  lemma RolledBackIsRestored(v: View, o: View, r: Receipt)
    requires Honest(v, o, r) && r.state == RolledBack
    ensures Restored(v, o)
  {
  }

  // ---------------------------------------------------------------------
  // Running an interrupted rollback of an installed receipt again
  // ---------------------------------------------------------------------

  /** The names a listing of the saved Summit children shows. */
  method ListSavedChildren(d: Disk, at: Places) returns (names: set<Name>)
    ensures names == Entries(ViewOf(d.root, at), SavedSummit).Keys
  {
    hide ViewOf;
    ViewLookup(d.root, at, SavedSummit);
    var node := Get(d.root, at[SavedSummit]);
    return if node.Some? && node.value.Dir? then node.value.entries.Keys else {};
  }

  /**
   The careful operator: as long as the listing of the saved children is what it
   was before the first attempt, an interrupted rollback is run again; otherwise
   it is left alone. It ends with the originals back, or with none of them lost.
   */
  method RepeatRollback(d: Disk, backup: Path, stage: Path, hostname: string, cuts: seq<nat>,
                        receipt: Receipt, ghost o: View)
    returns (finished: bool)
    requires StoredReceipt(d.root, backup) == Some(receipt) && receipt.state.Installed?
    requires Accepted(receipt, hostname) && RollbackSetting(d.root, backup, stage, o)
    requires Honest(ViewOf(d.root, PlacesOf(receipt.paths, backup, stage)), o, receipt)
    modifies d
    ensures var at := PlacesOf(receipt.paths, backup, stage);
            var w := ViewOf(d.root, at);
            && SameAt(w, ViewOf(old(d.root), at), SummitKeys)
            && (finished ==> Honest(w, o, receipt.(state := RolledBack)) && NoNewChildren(w, o))
            && (!finished ==> RollbackPossible(w, o, receipt))
  {
    hide ViewOf, PlacesOf, ValidReceipt, Clear, RollbackPossible, Honest, SameAt, StoredReceipt,
         BackupKeptApart, SummitSaved, RollbackCut, RefusedView, RestoreView, Unhindered,
         NoNewChildren, LinkFree, NoLinks, Lockable;
    var at := PlacesOf(receipt.paths, backup, stage);
    ghost var v := ViewOf(d.root, at);
    SameKeysAsItself(v);
    HonestIsPossible(v, o, receipt);
    var before := ListSavedChildren(d, at);
    for i := 0 to |cuts|
      invariant StoredReceipt(d.root, backup) == Some(receipt)
      invariant RollbackSetting(d.root, backup, stage, o)
      invariant SummitSaved(ViewOf(d.root, at), o)
      invariant SameAt(ViewOf(d.root, at), v, SummitKeys)
    {
      ghost var u, x := d.root, ViewOf(d.root, at);
      d.budget := Steps(cuts[i]);
      var r := RollbackCheckpoint(d, backup, stage, hostname, o);
      ghost var w := ViewOf(d.root, at);
      KeysTransitive(v, x, w);
      if r == Done {
        return true;
      }
      if AcceptedAt(u, backup, hostname) {
        InstalledCutIsPossible(x, w, o, receipt);
      }
      var after := ListSavedChildren(d, at);
      if r == Refused || after != before {
        return false;
      }
      SameListing(v, w, o, receipt);
      SettingStays(u, d.root, backup, stage, o, hostname);
    }
    ghost var u, x := d.root, ViewOf(d.root, at);
    d.budget := Unlimited;
    var r := RollbackCheckpoint(d, backup, stage, hostname, o);
    KeysTransitive(v, x, ViewOf(d.root, at));
    if r != Done && AcceptedAt(u, backup, hostname) {
      InstalledCutIsPossible(x, ViewOf(d.root, at), o, receipt);
    }
    return r == Done;
  }

  lemma InstalledCutIsPossible(v: View, w: View, o: View, r: Receipt)
    requires RollbackPossible(v, o, r) && r.state.Installed?
    requires SameAt(w, v, ReceiptFile) && RollbackCut(w, o)
    ensures RollbackPossible(w, o, r)
  {
    hide RollbackCut;
  }

  lemma SameListing(v: View, w: View, o: View, r: Receipt)
    requires Honest(v, o, r) && r.state.Installed? && RollbackPossible(w, o, r)
    requires Entries(w, SavedSummit).Keys == Entries(v, SavedSummit).Keys
    ensures SummitSaved(w, o)
  {
    AllSavedIsCut(v, o);
    forall n | n in Entries(w, SavedSummit)
      ensures Entries(w, SavedSummit)[n] == Unlocked(Entries(o, SummitStore))[n]
    {
      NoChildLost(w, o, n);
    }
    SavedSummitIsDir(w, o);
    assert Entries(w, SavedSummit) == Unlocked(Entries(o, SummitStore));
  }

  /**
   The careless operator: a rollback interrupted after as many steps as it takes
   to move one child back, then run again to its end. The second run succeeds
   and marks the receipt, and an original child is in neither store nor backup.
   */
  method RunInterruptedRollbackAgain(d: Disk, backup: Path, stage: Path, hostname: string,
                                     cost: nat, receipt: Receipt, ghost o: View)
    returns (ghost n: Name)
    requires StoredReceipt(d.root, backup) == Some(receipt) && receipt.state.Installed?
    requires Accepted(receipt, hostname) && RollbackSetting(d.root, backup, stage, o)
    requires var at := PlacesOf(receipt.paths, backup, stage);
             var v := ViewOf(d.root, at);
             && Honest(v, o, receipt) && Unhindered(v) && Entries(v, SavedSummit) != map[]
             && cost == FirstChildCost(v, receipt.previous)
             && ParentThere(d.root, at, RethDb) && ParentThere(d.root, at, RethStatic)
    modifies d
    ensures var w := ViewOf(d.root, PlacesOf(receipt.paths, backup, stage));
            && ReceiptIs(w, receipt.(state := RolledBack))
            && n in Entries(o, SummitStore) && n != LOCK
            && n !in Entries(w, SummitStore) && n !in Entries(w, SavedSummit)
            && !Restored(w, o)
  {
    hide ViewOf, PlacesOf, ValidReceipt, Clear, RollbackPossible, Honest, SameAt, StoredReceipt,
         BackupKeptApart, SummitSaved, RollbackCut, RefusedView, RestoreView, Unhindered,
         NoNewChildren, FirstChildCost, RestoreReth, CutAtFirstChild, ParentThere, Restored,
         FlagsOf, LinkFree, NoLinks, Lockable;
    ghost var at := PlacesOf(receipt.paths, backup, stage);
    ghost var t, v := d.root, ViewOf(d.root, at);
    HonestIsPossible(v, o, receipt);
    UnhinderedHasStore(v);
    SettingStays(t, t, backup, stage, o, hostname);
    d.budget := Steps(cost);
    var r := RollbackCheckpoint(d, backup, stage, hostname, o);
    ghost var c := ViewOf(d.root, at);
    InstalledCutIsPossible(v, c, o, receipt);
    SettingStays(t, d.root, backup, stage, o, hostname);
    n := CutLoses(v, c, o, receipt);
    d.budget := Unlimited;
    r := RollbackCheckpoint(d, backup, stage, hostname, o);
    LostAfterMark(RestoreView(c, receipt.previous, true), o, receipt, n);
  }

  lemma UnhinderedHasStore(v: View)
    requires Unhindered(v)
    ensures HasDir(v, SummitStore) && Enterable(v)
  {
  }

  /** The state cut after the first child, and what a second run makes of it. */
  lemma CutLoses(v: View, c: View, o: View, receipt: Receipt) returns (n: Name)
    requires Honest(v, o, receipt) && receipt.state.Installed? && Unhindered(v)
    requires CutAtFirstChild(RestoreReth(v, receipt.previous), c)
    ensures Unhindered(c) && HasDir(c, SummitStore)
    ensures var w := RestoreView(c, receipt.previous, true);
            && n in Entries(o, SummitStore) && n != LOCK
            && n !in Entries(w, SummitStore) && n !in Entries(w, SavedSummit)
            && !Restored(w, o)
  {
    var u := RestoreReth(v, FlagsOf(o));
    AfterReth(v, FlagsOf(o), true);
    hide RestoreReth;
    n :| n in u[SavedSummit].entries && c == CutAfterChild(u, n);
    AllSavedIsCut(v, o);
    CutIsUnhindered(v, FlagsOf(o), n);
    hide Unhindered, CutAfterChild;
    CutRollbackLosesChild(v, o, n);
    hide RestoreView, Restored, RollbackCut;
  }

  lemma CutIsUnhindered(v: View, prev: Previous, n: Name)
    requires Unhindered(v) && LOCK !in Entries(v, SavedSummit)
    requires var u := RestoreReth(v, prev); HasDir(u, SavedSummit) && n in u[SavedSummit].entries
    ensures HasDir(RestoreReth(v, prev), SummitStore)
    ensures var c := CutAfterChild(RestoreReth(v, prev), n);
            Unhindered(c) && HasDir(c, SummitStore)
  {
    var u := RestoreReth(v, prev);
    AfterReth(v, prev, true);
    RestoreRethAt(v, prev);
    hide RestoreReth;
    assert SameAt(u, v, SummitKeys) && SameAt(u, v, CheckpointDir) && SameAt(u, v, StartConfig);
    assert SameAt(u, v, Anchor) && SameAt(u, v, SummitStore);
  }

  lemma LostAfterMark(w: View, o: View, receipt: Receipt, n: Name)
    requires n !in Entries(w, SummitStore) && n !in Entries(w, SavedSummit) && !Restored(w, o)
    ensures var x := w[ReceiptFile :=
                       File(ReceiptJson(receipt.(state := RolledBack)), PRIVATE_FILE)];
            && ReceiptIs(x, receipt.(state := RolledBack))
            && n !in Entries(x, SummitStore) && n !in Entries(x, SavedSummit)
            && !Restored(x, o)
  {
    ReceiptWritten(w, o, File(ReceiptJson(receipt.(state := RolledBack)), PRIVATE_FILE));
  }

  /**
   A rollback refused at an input file has lost nothing yet, but all children
   are back: once the directory in the way is removed, running the rollback
   again removes them, every one.
   */
  lemma RefusedRollbackLosesChildren(v: View, o: View, n: Name)
    requires AllSaved(v, o) && HasDir(v, SummitStore) && InputsBlocked(v)
    requires n in Unlocked(Entries(o, SummitStore))
    ensures var w := RefusedView(v, FlagsOf(o), true);
            var x := w - {StartConfig, Anchor};
            && Entries(w, SummitStore).Keys - {LOCK} == Unlocked(Entries(o, SummitStore)).Keys
            && Entries(w, SavedSummit) == map[] && HasDir(x, SummitStore)
            && n !in Entries(RestoreView(x, FlagsOf(o), true), SummitStore)
  {
    var u := RestoreReth(v, FlagsOf(o));
    RethLeavesSummit(v, FlagsOf(o));
    hide RestoreReth, FlagsOf;
    var y := RestoreSummit(u, true);
    var w := InputsRefused(y, FlagsOf(o));
    RefusedLeavesSummit(y, FlagsOf(o));
    OnlySavedChildren(u[SummitStore].entries, Entries(u, SavedSummit));
    var x := w - {StartConfig, Anchor};
    RestoredRest(x, FlagsOf(o), true);
    hide RestoreView, InputsRefused;
  }

  lemma RefusedLeavesSummit(v: View, prev: Previous)
    ensures SameSummit(v, InputsRefused(v, prev))
  {
  }

  /** A backup that holds everything does so whatever stands at a live input or checkpoint. */
  lemma SavedWithout(v: View, w: View, o: View, r: Receipt, p: Place)
    requires p.CheckpointDir? || p.StartConfig? || p.Anchor?
    requires Honest(v, o, r) && r.state.Installed? && (w == v - {p} || (p in w && w == v[p := w[p]]))
    ensures Honest(w, o, r) && RollbackPossible(w, o, r) && (Lockable(w) <==> Lockable(v))
    ensures p !in w && Unhindered(v) ==> Unhindered(w)
    ensures LinkAt(w, p) ==> !NoLinks(w) && !Unhindered(w)
  {
    assert Entries(w, SavedSummit) == Entries(v, SavedSummit);
    AllSavedIsCut(w, o);
  }

  /** A link at a recorded path is what makes a rollback refuse, and nothing else about it. */
  lemma LinkRefusesRollback(t: Node, backup: Path, stage: Path, hostname: string, o: View,
                            p: Place, target: Path)
    requires AcceptedAt(t, backup, hostname) && RollbackSetting(t, backup, stage, o)
    requires p.CheckpointDir? || p.StartConfig? || p.Anchor?
    requires var receipt := StoredReceipt(t, backup).value;
             var at := PlacesOf(receipt.paths, backup, stage);
             && receipt.state.Installed? && Honest(ViewOf(t, at), o, receipt)
             && Unhindered(ViewOf(t, at)) && CanPut(t, at[p])
    ensures var receipt := StoredReceipt(t, backup).value;
            var at := PlacesOf(receipt.paths, backup, stage);
            var u := Put(t, at[p], Symlink(target));
            && RollbackSetting(u, backup, stage, o) && !AcceptedAt(u, backup, hostname)
            && at[p] != []
            && var y := Del(u, at[p]);
              && StoredReceipt(y, backup) == Some(receipt)
              && RollbackSetting(y, backup, stage, o) && AcceptedAt(y, backup, hostname)
              && Honest(ViewOf(y, at), o, receipt) && Unhindered(ViewOf(y, at))
  {
    hide ViewOf, PlacesOf, Clear, Separate, RollbackPossible, StoredReceipt, BackupKeptApart,
         ValidReceipt, LinkFree, NoLinks, Lockable, Honest, Unhindered, Get, Put, Del, CanPut;
    var receipt := StoredReceipt(t, backup).value;
    var at := PlacesOf(receipt.paths, backup, stage);
    var v, link := ViewOf(t, at), Symlink(target);
    ReceiptSeparates(receipt, backup, stage);
    ClearParent(t, at, p);
    ViewPut(t, at, p, link);
    var u := Put(t, at[p], link);
    SavedWithout(v, ViewOf(u, at), o, receipt, p);
    SettingStays(t, u, backup, stage, o, hostname);
    ViewDel(u, at, p);
    var y := Del(u, at[p]);
    assert v[p := link] - {p} == v - {p};
    SavedWithout(v, ViewOf(y, at), o, receipt, p);
    SettingStays(t, y, backup, stage, o, hostname);
    UnhinderedHasStore(ViewOf(y, at));
    EnterableNoLinks(ViewOf(y, at));
  }

  lemma EnterableNoLinks(v: View)
    requires Enterable(v)
    ensures NoLinks(v)
  {
  }

  /**
   A link left at the checkpoint directory or at an input file: the rollback
   refuses and changes nothing, and once the link is removed it gets to its end.
   */
  method RollBackPastLink(d: Disk, backup: Path, stage: Path, hostname: string, p: Place,
                          target: Path, receipt: Receipt, ghost o: View)
    returns (first: Outcome, second: Outcome)
    requires StoredReceipt(d.root, backup) == Some(receipt) && receipt.state.Installed?
    requires AcceptedAt(d.root, backup, hostname) && RollbackSetting(d.root, backup, stage, o)
    requires p.CheckpointDir? || p.StartConfig? || p.Anchor?
    requires var at := PlacesOf(receipt.paths, backup, stage);
             && Honest(ViewOf(d.root, at), o, receipt)
             && Unhindered(ViewOf(d.root, at)) && CanPut(d.root, at[p])
    modifies d
    ensures first == Refused && second == Done
    ensures var w := ViewOf(d.root, PlacesOf(receipt.paths, backup, stage));
            Honest(w, o, receipt.(state := RolledBack)) && NoNewChildren(w, o)
  {
    hide ViewOf, PlacesOf, ValidReceipt, Clear, RollbackPossible, Honest, SameAt, StoredReceipt,
         BackupKeptApart, SummitSaved, RollbackCut, RefusedView, RestoreView, Unhindered,
         NoNewChildren, LinkFree, NoLinks, Lockable, Put, Del, CanPut, Get;
    var at := PlacesOf(receipt.paths, backup, stage);
    LinkRefusesRollback(d.root, backup, stage, hostname, o, p, target);
    d.root := Put(d.root, at[p], Symlink(target));
    d.budget := Unlimited;
    first := RollbackCheckpoint(d, backup, stage, hostname, o);
    var removed;
    ghost var left;
    removed, left := d.RemovePath(at[p]);
    HonestIsPossible(ViewOf(d.root, at), o, receipt);
    second := RollbackCheckpoint(d, backup, stage, hostname, o);
  }

  // ---------------------------------------------------------------------
  // Deleting
  // ---------------------------------------------------------------------

  /** The backup and the live trees, which must not overlap. */
  function DeletionPaths(backup: Path, live: LivePaths): seq<Path> {
    [backup, live.reth, live.summit, live.keys, live.checkpoint]
  }

  /** What a deletion on this host asks of the backup and of its receipt. */
  predicate DeletionAllowed(t: Node, backup: Path, deleting: Name, hostname: string) {
    && backup != [] && IsDir(t, backup) && Get(t, backup).value.mode % 64 == 0
    && StoredReceipt(t, backup).Some?
    && var receipt := StoredReceipt(t, backup).value;
      && ValidReceipt(receipt) && LinkFree(t, receipt.paths) && receipt.hostname == hostname
      && receipt.state != Installing
      && PairwiseApart([backup, receipt.paths.reth, receipt.paths.summit, receipt.paths.keys,
                        receipt.paths.checkpoint])
      && Get(t, Parent(backup) + [deleting]).None?
  }

  /**
   `delete_backup` of the backup at `backup`: refused, with nothing changed,
   exactly when its receipt does not allow the deletion on this host; complete,
   the backup is gone and every node that existed apart from it is as it was.
   */
  method DeleteBackup(d: Disk, backup: Path, deleting: Name, hostname: string)
    returns (r: Outcome)
    modifies d
    ensures r == Refused <==>
            !DeletionAllowed(old(d.root), backup, deleting, hostname)
    ensures StoredReceipt(old(d.root), backup).Some? ==>
              StoredReceipt(old(d.root), backup).value.state == Installing ==> r == Refused
    ensures r == Refused ==> d.root == old(d.root)
    ensures r == Stopped ==> !old(d.budget).Unlimited?
    ensures r == Done ==> backup != [] && d.root == Del(old(d.root), backup)
    ensures r == Done ==> Get(d.root, backup).None?
    ensures forall q :: Apart(backup, q) && Get(old(d.root), q).Some? ==>
              Get(d.root, q) == Get(old(d.root), q)
  {
    hide PairwiseApart, ValidReceipt, StoredReceipt, BackupKeptApart, LinkFree;
    ghost var t := d.root;
    var stored := StoredReceipt(d.root, backup);
    if backup == [] || !PrivateDir(d.root, backup) || stored.None? {
      return Refused;
    }
    var receipt := stored.value;
    var ok := ValidateRollbackReceipt(d.root, receipt);
    if !ok || !Deletable(receipt.state) || receipt.hostname != hostname {
      return Refused;
    }
    ok := RequireSeparatePaths(DeletionPaths(backup, receipt.paths));
    var aside := Parent(backup) + [deleting];
    if !ok || Get(d.root, aside).Some? {
      return Refused;
    }
    var go := d.Tick();
    if !go {
      return Stopped;
    }
    var tree := Get(d.root, backup).value;
    SetAside(t, backup, deleting);
    d.root := Put(Del(d.root, backup), aside, tree);
    ghost var u := d.root;
    ghost var left;
    DelPut(Del(t, backup), aside, tree);
    DelAbsent(Del(t, backup), aside);
    r, left := d.RemovePath(aside);
    forall q | q == backup || (Apart(backup, q) && Get(t, q).Some?)
      ensures Get(d.root, q) == Get(u, q)
    {
      ApartFromAside(t, backup, deleting, q);
      if r == Done {
        GetDelApart(u, aside, q);
      } else {
        GetPutApart(u, aside, left.value, q);
      }
    }
  }

  /** The name a backup is renamed to is apart from it and from all that is apart from it. */
  lemma ApartFromAside(t: Node, p: Path, n: Name, q: Path)
    requires p != [] && Get(t, p).Some? && Get(t, Parent(p) + [n]).None?
    requires q == p || (Apart(p, q) && Get(t, q).Some?)
    ensures Apart(Parent(p) + [n], q)
  {
    if q == p {
      var m := p[|p| - 1];
      assert p == Parent(p) + [m] && m != n;
      ApartSiblings(Parent(p), [n], [m]);
    } else {
      FreshStageOverlap(t, p, n, q);
    }
  }

  /** A free name beside a deleted node is free after the deletion. */
  lemma GetDelSibling(t: Node, p: Path, n: Name)
    requires p != [] && Get(t, p).Some? && Get(t, Parent(p) + [n]).None?
    ensures Get(Del(t, p), Parent(p) + [n]).None?
  {
    ApartFromAside(t, p, n, p);
    ApartSymmetric(Parent(p) + [n], p);
    GetDelApart(t, p, Parent(p) + [n]);
  }

  lemma SetAside(t: Node, p: Path, n: Name)
    requires p != [] && Get(t, p).Some? && Get(t, Parent(p) + [n]).None?
    ensures var aside := Parent(p) + [n];
            CanPut(Del(t, p), aside) && Get(Del(t, p), aside).None? &&
            var u := Put(Del(t, p), aside, Get(t, p).value);
            Get(u, p).None? && Get(u, aside) == Get(t, p) &&
            forall q :: Apart(p, q) && Get(t, q).Some? ==> Get(u, q) == Get(t, q)
  {
    var aside := Parent(p) + [n];
    assert Parent(aside) == Parent(p);
    PutGet(t, p);
    CanPutIffParentDir(t, p);
    DeletedElsewhere(t, p, Parent(p));
    CanPutIffParentDir(Del(t, p), aside);
    GetDelSibling(t, p, n);
    var u := Put(Del(t, p), aside, Get(t, p).value);
    GetPutSame(Del(t, p), aside, Get(t, p).value);
    GetDelSame(t, p);
    ApartFromAside(t, p, n, p);
    GetPutApart(Del(t, p), aside, Get(t, p).value, p);
    forall q | Apart(p, q) && Get(t, q).Some?
      ensures Get(u, q) == Get(t, q)
    {
      ApartFromAside(t, p, n, q);
      GetDelApart(t, p, q);
      GetPutApart(Del(t, p), aside, Get(t, p).value, q);
    }
  }
}
