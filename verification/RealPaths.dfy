/**
 The transaction's promises once more, at the paths an operator sees: which
 directory ends up where, and what lies under which name in a backup. No name
 of a place, no layout and no constant of the other modules is used to say it.
 */
module RealPaths {
  import opened Base
  import opened FileTree
  import opened Layouts
  import opened CheckpointSpec

  /** Where the seventeen places are. */
  lemma PlacePaths(live: LivePaths, backup: Path, stage: Path)
    ensures var at := PlacesOf(live, backup, stage);
            && at[RethDb] == live.reth + ["db"]
            && at[RethStatic] == live.reth + ["static_files"]
            && at[SummitStore] == live.summit && at[SummitKeys] == live.keys
            && at[CheckpointDir] == live.checkpoint
            && at[StartConfig] == live.config && at[Anchor] == live.weak
            && at[SavedDb] == backup + ["reth", "db"]
            && at[SavedStatic] == backup + ["reth", "static_files"]
            && at[SavedSummit] == backup + ["summit-data"]
            && at[SavedCheckpoint] == backup + ["previous-checkpoint"]
            && at[SavedConfig] == backup + ["previous-checkpoint-start.toml"]
            && at[SavedAnchor] == backup + ["previous-weak-subjectivity.toml"]
            && at[ReceiptFile] == backup + ["rollback-manifest.json"]
            && at[StagedDb] == stage + ["db"] && at[StagedStatic] == stage + ["static_files"]
            && at[StagedCheckpoint] == stage + ["summit_checkpoint"]
  {
    LivePlacePaths(live, backup, stage);
    BackupPaths(live, backup, stage);
    hide PlacesOf;
    PlaceAt(live, backup, stage, StagedDb);
    PlaceAt(live, backup, stage, StagedStatic);
    PlaceAt(live, backup, stage, StagedCheckpoint);
  }

  lemma LivePlacePaths(live: LivePaths, backup: Path, stage: Path)
    ensures var at := PlacesOf(live, backup, stage);
            && at[RethDb] == live.reth + ["db"]
            && at[RethStatic] == live.reth + ["static_files"]
            && at[SummitStore] == live.summit && at[SummitKeys] == live.keys
            && at[CheckpointDir] == live.checkpoint
            && at[StartConfig] == live.config && at[Anchor] == live.weak
  {
    hide PlacesOf;
    PlaceAt(live, backup, stage, RethDb);
    PlaceAt(live, backup, stage, RethStatic);
    PlaceAt(live, backup, stage, SummitStore);
    PlaceAt(live, backup, stage, SummitKeys);
    PlaceAt(live, backup, stage, CheckpointDir);
    PlaceAt(live, backup, stage, StartConfig);
    PlaceAt(live, backup, stage, Anchor);
  }

  lemma BackupPaths(live: LivePaths, backup: Path, stage: Path)
    ensures var at := PlacesOf(live, backup, stage);
            && at[SavedDb] == backup + ["reth", "db"]
            && at[SavedStatic] == backup + ["reth", "static_files"]
            && at[SavedSummit] == backup + ["summit-data"]
            && at[SavedCheckpoint] == backup + ["previous-checkpoint"]
            && at[SavedConfig] == backup + ["previous-checkpoint-start.toml"]
            && at[SavedAnchor] == backup + ["previous-weak-subjectivity.toml"]
            && at[ReceiptFile] == backup + ["rollback-manifest.json"]
  {
    hide PlacesOf;
    PlaceAt(live, backup, stage, SavedDb);
    PlaceAt(live, backup, stage, SavedStatic);
    PlaceAt(live, backup, stage, SavedSummit);
    PlaceAt(live, backup, stage, SavedCheckpoint);
    PlaceAt(live, backup, stage, SavedConfig);
    PlaceAt(live, backup, stage, SavedAnchor);
    PlaceAt(live, backup, stage, ReceiptFile);
  }

  // ---------------------------------------------------------------------
  // The promises at their paths; `t` is the tree before, `u` the tree after
  // ---------------------------------------------------------------------

  /**
   The staged trees are live, both input files are written, and of the Summit
   store nothing but the lock is left.
   */
  ghost predicate InstalledAtPaths(t: Node, u: Node, live: LivePaths, stage: Path, anchor: Content) {
    && IsDir(t, stage + ["db"]) && Get(u, live.reth + ["db"]) == Get(t, stage + ["db"])
    && IsDir(t, stage + ["static_files"])
    && Get(u, live.reth + ["static_files"]) == Get(t, stage + ["static_files"])
    && IsDir(t, stage + ["summit_checkpoint"])
    && Get(u, live.checkpoint) == Get(t, stage + ["summit_checkpoint"])
    && Get(u, live.weak) == Some(File(anchor, 0x1A4))
    && Get(u, live.config) == Some(File(StartConfigToml(live.checkpoint, live.weak), 0x1A4))
    && IsDir(u, live.summit)
    && forall n: Name :: n != ".summit-process.lock" ==> Get(u, live.summit + [n]).None?
  }

  /** What was live at `p`, or that there was nothing, is saved at `s`. */
  predicate SavedAs(t: Node, u: Node, p: Path, s: Path) {
    Get(u, s) == Get(t, p)
  }

  predicate ChildSavedAt(t: Node, u: Node, live: LivePaths, backup: Path, n: Name) {
    Get(u, backup + ["summit-data", n]) ==
      if n == ".summit-process.lock" then None else Get(t, live.summit + [n])
  }

  /** The backup holds all that was live, under its name in the backup. */
  ghost predicate SavedAtPaths(t: Node, u: Node, live: LivePaths, backup: Path) {
    && SavedAs(t, u, live.reth + ["db"], backup + ["reth", "db"])
    && SavedAs(t, u, live.reth + ["static_files"], backup + ["reth", "static_files"])
    && SavedAs(t, u, live.checkpoint, backup + ["previous-checkpoint"])
    && SavedAs(t, u, live.config, backup + ["previous-checkpoint-start.toml"])
    && SavedAs(t, u, live.weak, backup + ["previous-weak-subjectivity.toml"])
    && forall n: Name :: ChildSavedAt(t, u, live, backup, n)
  }

  /** What was live at `p` is saved at `s` as it was, or live as it was; none is saved of nothing. */
  predicate KeptAt(t: Node, u: Node, p: Path, s: Path) {
    if Get(t, p).None? then Get(u, s).None?
    else Get(u, s) == Get(t, p) || (Get(u, s).None? && Get(u, p) == Get(t, p))
  }

  /** A child of the Summit store is in one of its two places, and no other child is. */
  predicate ChildKeptAt(t: Node, u: Node, live: LivePaths, backup: Path, n: Name) {
    var orig := Get(t, live.summit + [n]);
    var here, saved := Get(u, live.summit + [n]), Get(u, backup + ["summit-data", n]);
    (here == orig && saved.None?) || (here.None? && saved == orig)
  }

  /** Nothing that was live is lost. */
  ghost predicate KeptAtPaths(t: Node, u: Node, live: LivePaths, backup: Path) {
    && KeptAt(t, u, live.reth + ["db"], backup + ["reth", "db"])
    && KeptAt(t, u, live.reth + ["static_files"], backup + ["reth", "static_files"])
    && KeptAt(t, u, live.checkpoint, backup + ["previous-checkpoint"])
    && KeptAt(t, u, live.config, backup + ["previous-checkpoint-start.toml"])
    && KeptAt(t, u, live.weak, backup + ["previous-weak-subjectivity.toml"])
    && forall n: Name :: n != ".summit-process.lock" ==> ChildKeptAt(t, u, live, backup, n)
  }

  /** The six replaced items are what they were. */
  ghost predicate RestoredAtPaths(t: Node, u: Node, live: LivePaths) {
    && Get(u, live.reth + ["db"]) == Get(t, live.reth + ["db"])
    && Get(u, live.reth + ["static_files"]) == Get(t, live.reth + ["static_files"])
    && Get(u, live.checkpoint) == Get(t, live.checkpoint)
    && Get(u, live.config) == Get(t, live.config)
    && Get(u, live.weak) == Get(t, live.weak)
    && forall n: Name :: n != ".summit-process.lock" ==>
         Get(u, live.summit + [n]) == Get(t, live.summit + [n])
  }

  /** The receipt file of the backup records `r`. */
  predicate Records(t: Node, backup: Path, r: Receipt) {
    match Get(t, backup + ["rollback-manifest.json"])
    case Some(File(ReceiptJson(stored), _)) => stored == r
    case _ => false
  }

  /** The receipt of the backup, and the items it says existed. */
  predicate ReceiptAtPath(t: Node, u: Node, live: LivePaths, backup: Path, r: Receipt) {
    && Records(u, backup, r)
    && r.previous == Previous(
         Get(t, live.reth + ["db"]).Some?, Get(t, live.reth + ["static_files"]).Some?,
         Get(t, live.checkpoint).Some?, Get(t, live.config).Some?, Get(t, live.weak).Some?)
  }

  /** What the recorded state promises of `u`, against the tree `t` from before the installation. */
  ghost predicate HonestAtPaths(t: Node, u: Node, live: LivePaths, backup: Path, r: Receipt) {
    ReceiptAtPath(t, u, live, backup, r) &&
    match r.state
    case Installing => KeptAtPaths(t, u, live, backup)
    case Installed => SavedAtPaths(t, u, live, backup)
    case AutomaticallyRolledBack => RestoredAtPaths(t, u, live)
    case RolledBack => RestoredAtPaths(t, u, live)
  }

  /** Nothing is at `p`, or a directory. */
  predicate NoneOrDir(t: Node, p: Path) {
    Get(t, p).None? || IsDir(t, p)
  }

  /**
   Nothing is at `p`, or a regular file that is not empty, that neither the
   group nor others may write, and that lies below such directories only.
   */
  predicate NoneOrManaged(t: Node, p: Path) {
    p != [] &&
    match Get(t, p)
    case None => true
    case Some(File(content, mode)) =>
      content != Bytes([]) && (mode / 16) % 2 == 0 && (mode / 2) % 2 == 0 &&
      SafePath(t, Parent(p))
    case Some(_) => false
  }

  /** The live state that an installation accepts. */
  predicate TargetsAtPaths(t: Node, live: LivePaths) {
    && NoneOrDir(t, live.reth + ["db"]) && NoneOrDir(t, live.reth + ["static_files"])
    && NoneOrDir(t, live.checkpoint)
    && NoneOrManaged(t, live.config) && NoneOrManaged(t, live.weak)
    && LockableAt(t, live.summit) && IsDir(t, live.keys)
  }

  /** A path in or below one of the trees that an installation moves. */
  predicate BelowMoved(live: LivePaths, stage: Path, source: Path) {
    || live.reth + ["db"] <= source || live.reth + ["static_files"] <= source
    || live.checkpoint <= source
    || (live.summit <= source && source != live.summit + [".summit-process.lock"])
    || stage + ["db"] <= source || stage + ["static_files"] <= source
    || stage + ["summit_checkpoint"] <= source
  }

  predicate IsLinkAt(t: Node, p: Path) {
    Get(t, p).Some? && Get(t, p).value.Symlink?
  }

  /** A saved input can be written back: nothing but a file is at its live path. */
  predicate CanBeWritten(t: Node, p: Path, s: Path) {
    Get(t, s).Some? ==> Get(t, p).None? || Get(t, p).value.File?
  }

  /** The live state in which a rollback of a completed installation gets to its end. */
  predicate UnhinderedAtPaths(t: Node, live: LivePaths, backup: Path) {
    && LockableAt(t, live.summit)
    && !IsLinkAt(t, live.keys) && !IsLinkAt(t, live.checkpoint)
    && !IsLinkAt(t, live.config) && !IsLinkAt(t, live.weak)
    && CanBeWritten(t, live.config, backup + ["previous-checkpoint-start.toml"])
    && CanBeWritten(t, live.weak, backup + ["previous-weak-subjectivity.toml"])
  }

  // ---------------------------------------------------------------------
  // From the places to the paths
  // ---------------------------------------------------------------------

  function AtPlace(v: View, p: Place): Option<Node> {
    if p in v then Some(v[p]) else None
  }

  lemma SeenAt(t: Node, at: Places, p: Place)
    ensures Get(t, at[p]) == AtPlace(ViewOf(t, at), p)
  {
  }

  /** A child of a directory place, or of one where there is nothing. */
  lemma ChildSeenAt(t: Node, at: Places, p: Place, n: Name)
    requires p in ViewOf(t, at) ==> ViewOf(t, at)[p].Dir?
    ensures var entries := Entries(ViewOf(t, at), p);
            Get(t, at[p] + [n]) == if n in entries then Some(entries[n]) else None
  {
    if p in ViewOf(t, at) {
      GetBelow(t, at[p], [n]);
    } else {
      NotBelowNothing(t, at[p], [n]);
    }
  }

  lemma ItemsSeen(t: Node, live: LivePaths, backup: Path, stage: Path)
    ensures var v := ViewOf(t, PlacesOf(live, backup, stage));
            && Get(t, live.reth + ["db"]) == AtPlace(v, RethDb)
            && Get(t, live.reth + ["static_files"]) == AtPlace(v, RethStatic)
            && Get(t, live.checkpoint) == AtPlace(v, CheckpointDir)
            && Get(t, live.config) == AtPlace(v, StartConfig)
            && Get(t, live.weak) == AtPlace(v, Anchor)
  {
    hide ViewOf, PlacesOf, Get, AtPlace;
    var at := PlacesOf(live, backup, stage);
    LivePlacePaths(live, backup, stage);
    SeenAt(t, at, RethDb);
    SeenAt(t, at, RethStatic);
    SeenAt(t, at, CheckpointDir);
    SeenAt(t, at, StartConfig);
    SeenAt(t, at, Anchor);
  }

  lemma CopiesSeen(t: Node, live: LivePaths, backup: Path, stage: Path)
    ensures var v := ViewOf(t, PlacesOf(live, backup, stage));
            && Get(t, backup + ["reth", "db"]) == AtPlace(v, SavedDb)
            && Get(t, backup + ["reth", "static_files"]) == AtPlace(v, SavedStatic)
            && Get(t, backup + ["previous-checkpoint"]) == AtPlace(v, SavedCheckpoint)
            && Get(t, backup + ["previous-checkpoint-start.toml"]) == AtPlace(v, SavedConfig)
            && Get(t, backup + ["previous-weak-subjectivity.toml"]) == AtPlace(v, SavedAnchor)
            && Get(t, backup + ["rollback-manifest.json"]) == AtPlace(v, ReceiptFile)
  {
    hide ViewOf, PlacesOf, Get, AtPlace;
    var at := PlacesOf(live, backup, stage);
    BackupPaths(live, backup, stage);
    SeenAt(t, at, SavedDb);
    SeenAt(t, at, SavedStatic);
    SeenAt(t, at, SavedCheckpoint);
    SeenAt(t, at, SavedConfig);
    SeenAt(t, at, SavedAnchor);
    SeenAt(t, at, ReceiptFile);
  }

  function ChildAt(v: View, p: Place, n: Name): Option<Node> {
    if n in Entries(v, p) then Some(Entries(v, p)[n]) else None
  }

  lemma ChildrenSeen(t: Node, live: LivePaths, backup: Path, stage: Path, n: Name)
    ensures var v := ViewOf(t, PlacesOf(live, backup, stage));
            && (HasDir(v, SummitStore) ==>
                  Get(t, live.summit + [n]) == ChildAt(v, SummitStore, n))
            && ((SavedSummit in v ==> v[SavedSummit].Dir?) ==>
                  Get(t, backup + ["summit-data", n]) == ChildAt(v, SavedSummit, n))
  {
    hide ViewOf, PlacesOf, Get;
    var at := PlacesOf(live, backup, stage);
    var v := ViewOf(t, at);
    LivePlacePaths(live, backup, stage);
    BackupPaths(live, backup, stage);
    assert backup + ["summit-data"] + [n] == backup + ["summit-data", n];
    if HasDir(v, SummitStore) {
      ChildSeenAt(t, at, SummitStore, n);
    }
    if SavedSummit in v ==> v[SavedSummit].Dir? {
      ChildSeenAt(t, at, SavedSummit, n);
    }
  }

  /** The Summit lock can be acquired, seen at its path. */
  predicate LockableAt(t: Node, summit: Path) {
    IsDir(t, summit) &&
    (Get(t, summit + [".summit-process.lock"]).None? ||
     Get(t, summit + [".summit-process.lock"]).value.File?)
  }

  lemma LockableIsAtPath(t: Node, live: LivePaths, backup: Path, stage: Path)
    ensures Lockable(ViewOf(t, PlacesOf(live, backup, stage))) <==> LockableAt(t, live.summit)
  {
    hide ViewOf, PlacesOf, Get;
    var at := PlacesOf(live, backup, stage);
    LivePlacePaths(live, backup, stage);
    SeenAt(t, at, SummitStore);
    if HasDir(ViewOf(t, at), SummitStore) {
      ChildrenSeen(t, live, backup, stage, ".summit-process.lock");
    }
  }

  lemma LockableHasStore(t: Node, v: View, summit: Path)
    ensures Lockable(v) ==> HasDir(v, SummitStore)
    ensures LockableAt(t, summit) ==> IsDir(t, summit)
  {
  }

  ghost predicate SafelyPlaced(t: Node, at: Places, p: Place) {
    p in ViewOf(t, at) ==> SafeAt(t, at, p)
  }

  /** What the checks before an installation find, at its paths. */
  lemma TargetsAreAtPaths(t: Node, live: LivePaths, backup: Path, stage: Path)
    requires live.config != [] && live.weak != []
    ensures var at := PlacesOf(live, backup, stage);
            TargetsAtPaths(t, live) <==>
            ValidTargets(ViewOf(t, at)) && Lockable(ViewOf(t, at)) &&
            SafelyPlaced(t, at, StartConfig) && SafelyPlaced(t, at, Anchor)
  {
    hide ViewOf, PlacesOf, Get, SafePath;
    var at := PlacesOf(live, backup, stage);
    LivePlacePaths(live, backup, stage);
    ItemsSeen(t, live, backup, stage);
    LockableIsAtPath(t, live, backup, stage);
    SeenAt(t, at, SummitStore);
    SeenAt(t, at, SummitKeys);
    LockableHasStore(t, ViewOf(t, at), live.summit);
    hide Lockable, LockableAt;
  }

  /** Where no place has changed, nothing has at the paths. */
  lemma UnchangedIsAtPaths(t: Node, u: Node, live: LivePaths, backup: Path, stage: Path)
    requires var at := PlacesOf(live, backup, stage); ViewOf(u, at) == ViewOf(t, at)
    ensures RestoredAtPaths(t, u, live)
  {
    hide ViewOf, PlacesOf, Get;
    ItemsSeen(t, live, backup, stage);
    ItemsSeen(u, live, backup, stage);
    LivePlacePaths(live, backup, stage);
    var at := PlacesOf(live, backup, stage);
    SeenAt(t, at, SummitStore);
    SeenAt(u, at, SummitStore);
    forall n: Name
      ensures Get(u, live.summit + [n]) == Get(t, live.summit + [n])
    {
      SameChild(t, u, live.summit, n);
    }
  }

  lemma SameChild(t: Node, u: Node, p: Path, n: Name)
    requires Get(u, p) == Get(t, p)
    ensures Get(u, p + [n]) == Get(t, p + [n])
  {
    if Get(t, p).Some? {
      GetBelow(t, p, [n]);
      GetBelow(u, p, [n]);
    } else {
      NotBelowNothing(t, p, [n]);
      NotBelowNothing(u, p, [n]);
    }
  }

  lemma InstalledIsAtPaths(t: Node, u: Node, live: LivePaths, backup: Path, stage: Path,
                           anchor: Content)
    requires var at := PlacesOf(live, backup, stage);
             NewStateInstalled(ViewOf(u, at), ViewOf(t, at), live, anchor)
    ensures InstalledAtPaths(t, u, live, stage, anchor)
  {
    hide ViewOf, PlacesOf, Get;
    var at := PlacesOf(live, backup, stage);
    ItemsSeen(u, live, backup, stage);
    PlacePaths(live, backup, stage);
    SeenAt(t, at, StagedDb);
    SeenAt(t, at, StagedStatic);
    SeenAt(t, at, StagedCheckpoint);
    SeenAt(u, at, SummitStore);
    forall n: Name | n != ".summit-process.lock"
      ensures Get(u, live.summit + [n]).None?
    {
      ChildrenSeen(u, live, backup, stage, n);
    }
  }

  lemma RestoredIsAtPaths(t: Node, u: Node, live: LivePaths, backup: Path, stage: Path)
    requires var at := PlacesOf(live, backup, stage); Restored(ViewOf(u, at), ViewOf(t, at))
    ensures RestoredAtPaths(t, u, live)
  {
    hide ViewOf, PlacesOf, Get;
    var at := PlacesOf(live, backup, stage);
    ItemsSeen(t, live, backup, stage);
    ItemsSeen(u, live, backup, stage);
    forall n: Name | n != ".summit-process.lock"
      ensures Get(u, live.summit + [n]) == Get(t, live.summit + [n])
    {
      ChildrenSeen(t, live, backup, stage, n);
      ChildrenSeen(u, live, backup, stage, n);
      SameUnlocked(Entries(ViewOf(u, at), SummitStore), Entries(ViewOf(t, at), SummitStore), n);
    }
  }

  lemma SameUnlocked(a: map<Name, Node>, b: map<Name, Node>, n: Name)
    requires Unlocked(a) == Unlocked(b) && n != ".summit-process.lock"
    ensures (n in a <==> n in b) && (n in a ==> a[n] == b[n])
  {
    assert (n in a <==> n in Unlocked(a)) && (n in b <==> n in Unlocked(b));
  }

  lemma SavedChildIsAt(t: Node, u: Node, live: LivePaths, backup: Path, stage: Path, n: Name)
    requires var at := PlacesOf(live, backup, stage); AllSaved(ViewOf(u, at), ViewOf(t, at))
    ensures ChildSavedAt(t, u, live, backup, n)
  {
    hide ViewOf, PlacesOf, Get, ItemsSaved;
    ChildrenSeen(t, live, backup, stage, n);
    ChildrenSeen(u, live, backup, stage, n);
  }

  lemma SavedItemIsAt(t: Node, u: Node, at: Places, p: Place)
    requires IsItem(p) && ItemSaved(ViewOf(u, at), ViewOf(t, at), p)
    ensures SavedAs(t, u, at[p], at[SavedOf(p)])
  {
    hide ViewOf, Get;
    SeenAt(t, at, p);
    SeenAt(u, at, SavedOf(p));
  }

  lemma SavedIsAtPaths(t: Node, u: Node, live: LivePaths, backup: Path, stage: Path)
    requires var at := PlacesOf(live, backup, stage); AllSaved(ViewOf(u, at), ViewOf(t, at))
    ensures SavedAtPaths(t, u, live, backup)
  {
    hide ViewOf, PlacesOf, Get, HasDir, SummitSaved, ValidTargets, ItemSaved, SavedAs,
         ChildSavedAt;
    var at := PlacesOf(live, backup, stage);
    LivePlacePaths(live, backup, stage);
    BackupPaths(live, backup, stage);
    SavedItemIsAt(t, u, at, RethDb);
    SavedItemIsAt(t, u, at, RethStatic);
    SavedItemIsAt(t, u, at, CheckpointDir);
    SavedItemIsAt(t, u, at, StartConfig);
    SavedItemIsAt(t, u, at, Anchor);
    forall n: Name
      ensures ChildSavedAt(t, u, live, backup, n)
    {
      SavedChildIsAt(t, u, live, backup, stage, n);
    }
  }

  lemma KeptChildIsAt(t: Node, u: Node, live: LivePaths, backup: Path, stage: Path, n: Name)
    requires var at := PlacesOf(live, backup, stage); SummitKept(ViewOf(u, at), ViewOf(t, at))
    requires n != ".summit-process.lock"
    ensures ChildKeptAt(t, u, live, backup, n)
  {
    hide ViewOf, PlacesOf, Get;
    var at := PlacesOf(live, backup, stage);
    var v, o := ViewOf(u, at), ViewOf(t, at);
    ChildrenSeen(t, live, backup, stage, n);
    ChildrenSeen(u, live, backup, stage, n);
    assert ChildKept(n, v[SummitStore].entries, Entries(v, SavedSummit), o[SummitStore].entries);
  }

  lemma KeptItemIsAt(t: Node, u: Node, at: Places, p: Place)
    requires IsItem(p) && ItemKept(ViewOf(u, at), ViewOf(t, at), p)
    ensures KeptAt(t, u, at[p], at[SavedOf(p)])
  {
    hide ViewOf, Get;
    SeenAt(t, at, p);
    SeenAt(u, at, p);
    SeenAt(u, at, SavedOf(p));
  }

  lemma KeptIsAtPaths(t: Node, u: Node, live: LivePaths, backup: Path, stage: Path)
    requires var at := PlacesOf(live, backup, stage);
             ItemsKept(ViewOf(u, at), ViewOf(t, at)) && SummitKept(ViewOf(u, at), ViewOf(t, at))
    ensures KeptAtPaths(t, u, live, backup)
  {
    hide ViewOf, PlacesOf, Get, ValidTargets, SummitKept, ChildKeptAt, ItemKept, KeptAt;
    var at := PlacesOf(live, backup, stage);
    LivePlacePaths(live, backup, stage);
    BackupPaths(live, backup, stage);
    KeptItemIsAt(t, u, at, RethDb);
    KeptItemIsAt(t, u, at, RethStatic);
    KeptItemIsAt(t, u, at, CheckpointDir);
    KeptItemIsAt(t, u, at, StartConfig);
    KeptItemIsAt(t, u, at, Anchor);
    forall n: Name | n != ".summit-process.lock"
      ensures ChildKeptAt(t, u, live, backup, n)
    {
      KeptChildIsAt(t, u, live, backup, stage, n);
    }
  }

  /** A receipt that is honest about the places is honest about the paths. */
  lemma HonestIsAtPaths(t: Node, u: Node, live: LivePaths, backup: Path, stage: Path, r: Receipt)
    requires var at := PlacesOf(live, backup, stage); Honest(ViewOf(u, at), ViewOf(t, at), r)
    ensures HonestAtPaths(t, u, live, backup, r)
  {
    hide ViewOf, PlacesOf, Get, AllSaved, Restored, ItemsKept, SummitKept, Replaceable,
         KeptAtPaths, SavedAtPaths, RestoredAtPaths;
    ItemsSeen(t, live, backup, stage);
    CopiesSeen(u, live, backup, stage);
    match r.state
    case Installing =>
      KeptIsAtPaths(t, u, live, backup, stage);
    case Installed =>
      SavedIsAtPaths(t, u, live, backup, stage);
    case AutomaticallyRolledBack =>
      RestoredIsAtPaths(t, u, live, backup, stage);
    case RolledBack =>
      RestoredIsAtPaths(t, u, live, backup, stage);
  }

  // ---------------------------------------------------------------------
  // A finished rollback, from the tree it found
  // ---------------------------------------------------------------------

  /** Back from the backup; else left alone when it had existed, and removed when it had not. */
  predicate BackAt(t: Node, u: Node, p: Path, s: Path, had: bool) {
    Get(u, p) == if Get(t, s).Some? then Get(t, s) else if had then Get(t, p) else None
  }

  /** The children of the Summit store, which stay without a copy when `stay`. */
  ghost predicate ChildrenBackAt(t: Node, u: Node, live: LivePaths, backup: Path, stay: bool) {
    forall n: Name :: n != ".summit-process.lock" ==>
      BackAt(t, u, live.summit + [n], backup + ["summit-data", n], stay)
  }

  /**
   A finished rollback with the receipt `r`: the five items from their copies,
   and the saved children, with no other child left when the installation had
   been completed.
   */
  ghost predicate RolledBackAtPaths(t: Node, u: Node, live: LivePaths, backup: Path, r: Receipt) {
    && BackAt(t, u, live.reth + ["db"], backup + ["reth", "db"], r.previous.rethDb)
    && BackAt(t, u, live.reth + ["static_files"], backup + ["reth", "static_files"],
              r.previous.rethStatic)
    && BackAt(t, u, live.checkpoint, backup + ["previous-checkpoint"], r.previous.checkpoint)
    && BackAt(t, u, live.config, backup + ["previous-checkpoint-start.toml"], r.previous.config)
    && BackAt(t, u, live.weak, backup + ["previous-weak-subjectivity.toml"], r.previous.weak)
    && ChildrenBackAt(t, u, live, backup, r.state == Installing)
    && Records(u, backup, r.(state := RolledBack))
  }

  /** The same, on views. */
  ghost predicate RolledBackItems(v: View, w: View, r: Receipt) {
    && Holds(w, RethDb, ItemAfter(v, r.previous, RethDb))
    && Holds(w, RethStatic, ItemAfter(v, r.previous, RethStatic))
    && Holds(w, CheckpointDir, ItemAfter(v, r.previous, CheckpointDir))
    && Holds(w, StartConfig, ItemAfter(v, r.previous, StartConfig))
    && Holds(w, Anchor, ItemAfter(v, r.previous, Anchor))
    && HasDir(v, SummitStore) && HasDir(w, SummitStore)
    && (SavedSummit in v ==> v[SavedSummit].Dir?)
    && (forall n: Name :: n != LOCK ==>
          ChildAt(w, SummitStore, n) ==
          if n in Entries(v, SavedSummit) then Some(Entries(v, SavedSummit)[n])
          else if r.state == Installing then ChildAt(v, SummitStore, n) else None)
    && ReceiptIs(w, r.(state := RolledBack))
  }

  /** An interrupted installation, rolled back. */
  lemma InstallingRolledBack(v: View, w: View, o: View, r: Receipt)
    requires r.state == Installing && Honest(v, o, r) && Honest(w, o, r.(state := RolledBack))
    ensures RolledBackItems(v, w, r)
  {
    forall n: Name | n != LOCK
      ensures ChildAt(w, SummitStore, n) ==
              if n in Entries(v, SavedSummit) then Some(Entries(v, SavedSummit)[n])
              else ChildAt(v, SummitStore, n)
    {
      assert ChildKept(n, v[SummitStore].entries, Entries(v, SavedSummit), o[SummitStore].entries);
      SameUnlocked(w[SummitStore].entries, o[SummitStore].entries, n);
    }
  }

  /** A completed installation, rolled back. */
  lemma InstalledRolledBack(v: View, w: View, r: Receipt)
    requires r.state == Installed && HasDir(v, SummitStore)
    requires SavedSummit in v ==> v[SavedSummit].Dir?
    requires w == RestoreView(v, r.previous, true)
                  [ReceiptFile := File(ReceiptJson(r.(state := RolledBack)), PRIVATE_FILE)]
    ensures RolledBackItems(v, w, r)
  {
    RestoredItems(v, r.previous, true);
    var x := RestoreView(v, r.previous, true);
    OnlySavedLeft(v, x, r.previous);
    hide RestoreView, ItemAfter;
    assert SameAt(w, x, RethDb) && SameAt(w, x, RethStatic) && SameAt(w, x, CheckpointDir);
    assert SameAt(w, x, StartConfig) && SameAt(w, x, Anchor) && SameAt(w, x, SummitStore);
    assert Entries(w, SummitStore) == Entries(x, SummitStore);
  }

  lemma OnlySavedLeft(v: View, x: View, prev: Previous)
    requires HasDir(v, SummitStore) && x == RestoreView(v, prev, true)
    ensures HasDir(x, SummitStore)
    ensures forall n: Name :: n != LOCK ==>
              ChildAt(x, SummitStore, n) ==
              if n in Entries(v, SavedSummit) then Some(Entries(v, SavedSummit)[n]) else None
  {
    RestoredRest(v, prev, true);
    hide RestoreView;
  }

  lemma ChildBackAt(t: Node, u: Node, live: LivePaths, backup: Path, stage: Path, r: Receipt,
                    n: Name)
    requires var at := PlacesOf(live, backup, stage);
             RolledBackItems(ViewOf(t, at), ViewOf(u, at), r)
    requires n != ".summit-process.lock"
    ensures BackAt(t, u, live.summit + [n], backup + ["summit-data", n], r.state == Installing)
  {
    hide ViewOf, PlacesOf, Get, ItemAfter, Holds, ReceiptIs;
    ChildrenSeen(t, live, backup, stage, n);
    ChildrenSeen(u, live, backup, stage, n);
  }

  lemma ItemBackAt(t: Node, u: Node, at: Places, p: Place, prev: Previous)
    requires IsItem(p)
    requires Holds(ViewOf(u, at), p, ItemAfter(ViewOf(t, at), prev, p))
    ensures BackAt(t, u, at[p], at[SavedOf(p)], Had(prev, p))
  {
    hide ViewOf, Get;
    SeenAt(t, at, p);
    SeenAt(u, at, p);
    SeenAt(t, at, SavedOf(p));
  }

  lemma RecordedAt(t: Node, live: LivePaths, backup: Path, stage: Path, r: Receipt)
    requires ReceiptIs(ViewOf(t, PlacesOf(live, backup, stage)), r)
    ensures Records(t, backup, r)
  {
    hide ViewOf, Get, PlacesOf;
    BackupPaths(live, backup, stage);
    SeenAt(t, PlacesOf(live, backup, stage), ReceiptFile);
  }

  lemma ChildrenAreBackAt(t: Node, u: Node, live: LivePaths, backup: Path, stage: Path, r: Receipt)
    requires var at := PlacesOf(live, backup, stage);
             RolledBackItems(ViewOf(t, at), ViewOf(u, at), r)
    ensures ChildrenBackAt(t, u, live, backup, r.state == Installing)
  {
    hide RolledBackItems, ViewOf, PlacesOf, Get, BackAt;
    forall n: Name | n != ".summit-process.lock"
      ensures BackAt(t, u, live.summit + [n], backup + ["summit-data", n], r.state == Installing)
    {
      ChildBackAt(t, u, live, backup, stage, r, n);
    }
  }

  lemma RolledBackIsAtPaths(t: Node, u: Node, live: LivePaths, backup: Path, stage: Path,
                            r: Receipt)
    requires var at := PlacesOf(live, backup, stage);
             RolledBackItems(ViewOf(t, at), ViewOf(u, at), r)
    ensures RolledBackAtPaths(t, u, live, backup, r)
  {
    hide ViewOf, PlacesOf, Get, ChildAt, Entries, HasDir, Holds, ItemAfter, BackAt, ChildrenBackAt,
         Records, ReceiptIs;
    var at := PlacesOf(live, backup, stage);
    LivePlacePaths(live, backup, stage);
    BackupPaths(live, backup, stage);
    RecordedAt(u, live, backup, stage, r.(state := RolledBack));
    ItemBackAt(t, u, at, RethDb, r.previous);
    ItemBackAt(t, u, at, RethStatic, r.previous);
    ItemBackAt(t, u, at, CheckpointDir, r.previous);
    ItemBackAt(t, u, at, StartConfig, r.previous);
    ItemBackAt(t, u, at, Anchor, r.previous);
    ChildrenAreBackAt(t, u, live, backup, stage, r);
  }
}
