/**
 Creating the receipt, backing up the current state and installing the new one,
 step by step. From the moment the receipt is durable, every state in which a
 method may be cut can be restored.
 */
module Install {
  import opened Base
  import opened FileTree
  import opened Disks
  import opened Layouts
  import opened PlaceOps
  import opened CheckpointSpec
  import opened Restore

  /** The places made directly in the backup directory share it as parent. */
  predicate SharedBackup(at: Places) {
    at[ReceiptFile] != [] &&
    at[SavedSummit] != [] && Parent(at[SavedSummit]) == Parent(at[ReceiptFile]) &&
    at[SavedConfig] != [] && Parent(at[SavedConfig]) == Parent(at[ReceiptFile]) &&
    at[SavedAnchor] != [] && Parent(at[SavedAnchor]) == Parent(at[ReceiptFile])
  }

  lemma BackupDirExists(t: Node, at: Places)
    requires SharedBackup(at) && ReceiptFile in ViewOf(t, at)
    ensures IsDir(t, Parent(at[ReceiptFile]))
  {
    ViewLookup(t, at, ReceiptFile);
    PutGet(t, at[ReceiptFile]);
    CanPutIffParentDir(t, at[ReceiptFile]);
  }

  /** Before anything has moved, every original is live. */
  lemma FreshIsRecoverable(v: View, o: View)
    requires ValidTargets(o) && NothingInBackup(v)
    requires SameAt(v, o, RethDb) && SameAt(v, o, RethStatic) && SameAt(v, o, CheckpointDir)
    requires SameAt(v, o, StartConfig) && SameAt(v, o, Anchor) && SameAt(v, o, SummitStore)
    ensures Recoverable(v, o)
  {
    forall n | n != LOCK
      ensures ChildKept(n, v[SummitStore].entries, Entries(v, SavedSummit), o[SummitStore].entries)
    {
    }
  }

  lemma MkdirKeeps(v: View, o: View)
    requires Recoverable(v, o) && SavedSummit !in v
    ensures var w := v[SavedSummit := Dir(PRIVATE_DIR, map[])];
            Recoverable(w, o) && Untouched(v, w)
  {
    var w := v[SavedSummit := Dir(PRIVATE_DIR, map[])];
    forall n | n != LOCK
      ensures ChildKept(n, w[SummitStore].entries, Entries(w, SavedSummit), o[SummitStore].entries)
    {
      assert ChildKept(n, v[SummitStore].entries, Entries(v, SavedSummit), o[SummitStore].entries);
    }
  }

  /** Moving or copying an original item into the backup keeps the state recoverable. */
  lemma SavingKeeps(v: View, o: View, p: Place)
    requires Recoverable(v, o) && IsItem(p) && p in o && p in v && SavedOf(p) !in v
    ensures var w := (v - {p})[SavedOf(p) := v[p]]; Recoverable(w, o) && Untouched(v, w)
    ensures var w := v[SavedOf(p) := v[p]]; Recoverable(w, o) && Untouched(v, w)
  {
    ItemMovedAway(v, o, p);
    ItemCopied(v, o, p);
    SummitStays(v, (v - {p})[SavedOf(p) := v[p]], o);
    SummitStays(v, v[SavedOf(p) := v[p]], o);
    hide ItemsKept, SummitKept, SummitSaved, Untouched;
  }

  /** Back up one moved item (`backup_current_state`, Reth and checkpoint). */
  method BackUpMovedItem(d: Disk, at: Places, p: Place, had: bool, ghost o: View)
    returns (r: Outcome)
    requires Separate(at) && Clear(d.root, at) && Recoverable(ViewOf(d.root, at), o)
    requires p.RethDb? || p.RethStatic? || p.CheckpointDir?
    requires SavedOf(p) !in ViewOf(d.root, at) && had == (p in o) == (p in ViewOf(d.root, at))
    modifies d
    ensures Clear(d.root, at) && Recoverable(ViewOf(d.root, at), o)
    ensures ParentsKept(old(d.root), d.root, at)
    ensures d.budget.Unlimited? <==> old(d.budget).Unlimited?
    ensures r == Stopped ==> !old(d.budget).Unlimited?
    ensures r != Refused
    ensures r == Done ==> ViewOf(d.root, at) == BackUpMoved(ViewOf(old(d.root), at), p)
    ensures Untouched(ViewOf(old(d.root), at), ViewOf(d.root, at))
  {
    hide ViewOf, Recoverable, Untouched;
    ghost var v := ViewOf(d.root, at);
    UntouchedSame(v);
    if !had {
      return Done;
    }
    ViewLookup(d.root, at, p);
    ExistingItemIsDir(v, o, p);
    if !IsDir(d.root, at[p]) {
      return Refused;
    }
    r := MovePlace(d, at, p, SavedOf(p));
    SavingKeeps(v, o, p);
  }

  lemma ExistingItemIsDir(v: View, o: View, p: Place)
    requires Recoverable(v, o) && p in o && IsItem(p) && SavedOf(p) !in v
    ensures p in v && v[p] == o[p]
    ensures p.RethDb? || p.RethStatic? || p.CheckpointDir? ==> v[p].Dir?
    ensures p.StartConfig? || p.Anchor? ==> ManagedFile(v[p])
  {
  }

  /** Back up one copied file; it stays where it is as well. */
  method BackUpCopiedItem(d: Disk, at: Places, p: Place, had: bool, ghost o: View)
    returns (r: Outcome)
    requires Separate(at) && Clear(d.root, at) && Recoverable(ViewOf(d.root, at), o)
    requires SharedBackup(at) && ReceiptFile in ViewOf(d.root, at)
    requires p.StartConfig? || p.Anchor?
    requires SavedOf(p) !in ViewOf(d.root, at) && had == (p in o) == (p in ViewOf(d.root, at))
    modifies d
    ensures Clear(d.root, at) && Recoverable(ViewOf(d.root, at), o)
    ensures ParentsKept(old(d.root), d.root, at)
    ensures d.budget.Unlimited? <==> old(d.budget).Unlimited?
    ensures r == Stopped ==> !old(d.budget).Unlimited?
    ensures r == Refused ==> !SafeAt(old(d.root), at, p)
    ensures r == Done ==> ViewOf(d.root, at) == BackUpCopied(ViewOf(old(d.root), at), p)
    ensures Untouched(ViewOf(old(d.root), at), ViewOf(d.root, at))
  {
    hide ViewOf, Recoverable, Untouched;
    ghost var v := ViewOf(d.root, at);
    UntouchedSame(v);
    if !had {
      return Done;
    }
    BackupDirExists(d.root, at);
    ExistingItemIsDir(v, o, p);
    ViewLookup(d.root, at, p);
    var file := Get(d.root, at[p]);
    if file.None? || !ManagedFile(file.value) || !SafeAt(d.root, at, p) {
      return Refused;
    }
    r := CopyPlace(d, at, p, SavedOf(p));
    SavingKeeps(v, o, p);
  }

  // ---------------------------------------------------------------------
  // The children of the Summit store
  // ---------------------------------------------------------------------

  /** The store once the children not named any more have been moved away. */
  function Leaving(v: View, names: set<Name>): View
    requires HasDir(v, SummitStore)
  {
    var entries := v[SummitStore].entries;
    v[SummitStore := v[SummitStore].(entries :=
        map n | n in entries && (n in names || n == LOCK) :: entries[n])]
     [SavedSummit := Dir(PRIVATE_DIR,
        map n | n in entries && n !in names && n != LOCK :: entries[n])]
  }

  lemma LeavingStep(v: View, names: set<Name>, n: Name)
    requires HasDir(v, SummitStore) && n in names && names <= v[SummitStore].entries.Keys
    ensures var w := Leaving(v, names);
            HasDir(w, SummitStore) && HasDir(w, SavedSummit) && n in w[SummitStore].entries &&
            (n != LOCK ==> n !in w[SavedSummit].entries) &&
            Leaving(v, names - {n}) ==
              if n == LOCK then w else ChildMoved(w, SummitStore, SavedSummit, n)
  {
    var w := Leaving(v, names);
    var x := Leaving(v, names - {n});
    if n == LOCK {
      assert x[SummitStore].entries == w[SummitStore].entries;
      assert x[SavedSummit].entries == w[SavedSummit].entries;
    } else {
      var y := ChildMoved(w, SummitStore, SavedSummit, n);
      assert x[SummitStore].entries == y[SummitStore].entries;
      assert x[SavedSummit].entries == y[SavedSummit].entries;
    }
  }

  lemma LeavingEnds(v: View)
    requires HasDir(v, SummitStore)
    ensures Leaving(v, v[SummitStore].entries.Keys) ==
            v[SavedSummit := Dir(PRIVATE_DIR, map[])]
    ensures Leaving(v, {}) == BackUpSummit(v)
  {
    var entries := v[SummitStore].entries;
    var x, y := Leaving(v, entries.Keys), Leaving(v, {});
    assert x[SummitStore].entries == entries;
    assert x[SavedSummit].entries == map[];
    assert y[SummitStore].entries == OnlyLock(entries);
    assert y[SavedSummit].entries == Unlocked(entries);
  }

  lemma ChildLeavingKeeps(v: View, o: View, n: Name)
    requires Recoverable(v, o) && n != LOCK && HasDir(v, SavedSummit) && HasDir(v, SummitStore)
    requires n in v[SummitStore].entries
    ensures var w := ChildMoved(v, SummitStore, SavedSummit, n);
            Recoverable(w, o) && Untouched(v, w)
  {
    ChildMoveKeeps(v, o, SummitStore, n);
  }

  /** Move every child of the Summit store but the lock, in any order. */
  method BackUpChildren(d: Disk, at: Places, ghost o: View) returns (r: Outcome)
    requires Separate(at) && Clear(d.root, at) && Recoverable(ViewOf(d.root, at), o)
    requires SharedBackup(at) && ReceiptFile in ViewOf(d.root, at)
    requires HasDir(ViewOf(d.root, at), SummitStore) && SavedSummit !in ViewOf(d.root, at)
    modifies d
    ensures Clear(d.root, at) && Recoverable(ViewOf(d.root, at), o)
    ensures ParentsKept(old(d.root), d.root, at)
    ensures d.budget.Unlimited? <==> old(d.budget).Unlimited?
    ensures r == Stopped ==> !old(d.budget).Unlimited?
    ensures r != Refused
    ensures r == Done ==> ViewOf(d.root, at) == BackUpSummit(ViewOf(old(d.root), at))
    ensures Untouched(ViewOf(old(d.root), at), ViewOf(d.root, at))
  {
    hide ViewOf, Recoverable, Untouched, Leaving, ChildMoved, BackUpSummit;
    ghost var v := ViewOf(d.root, at);
    UntouchedSame(v);
    BackupDirExists(d.root, at);
    r := MakePlace(d, at, SavedSummit, PRIVATE_DIR);
    if r != Done {
      return;
    }
    MkdirKeeps(v, o);
    LeavingEnds(v);
    ViewLookup(d.root, at, SummitStore);
    var names := Get(d.root, at[SummitStore]).value.entries.Keys;
    while names != {}
      invariant Clear(d.root, at) && Recoverable(ViewOf(d.root, at), o)
      invariant ParentsKept(old(d.root), d.root, at)
      invariant names <= v[SummitStore].entries.Keys
      invariant ViewOf(d.root, at) == Leaving(v, names)
      invariant Untouched(v, ViewOf(d.root, at))
      invariant d.budget.Unlimited? <==> old(d.budget).Unlimited?
      decreases |names|
    {
      var n :| n in names;
      ghost var w := ViewOf(d.root, at);
      LeavingStep(v, names, n);
      if n != LOCK {
        r := MoveChild(d, at, SummitStore, SavedSummit, n);
        if r != Done {
          return;
        }
        ChildLeavingKeeps(w, o, n);
        UntouchedTransitive(v, w, ViewOf(d.root, at));
      }
      names := names - {n};
    }
    return Done;
  }

  // ---------------------------------------------------------------------
  // The whole backup
  // ---------------------------------------------------------------------

  predicate Pending(v: View, o: View, p: Place)
    requires IsItem(p)
  {
    SavedOf(p) !in v && (p in v <==> p in o)
  }

  predicate BackedUp(v: View, o: View, p: Place)
    requires IsItem(p)
  {
    (p in o ==> SavedOf(p) in v) && (p.StartConfig? || p.Anchor? || p !in v)
  }

  predicate StoreBackedUp(v: View) {
    HasDir(v, SavedSummit) && HasDir(v, SummitStore) && v[SummitStore].entries.Keys <= {LOCK}
  }

  /** The backup after its first `k` parts. */
  predicate Progress(v: View, o: View, k: nat) {
    && HasDir(v, SummitStore)
    && (if k > 0 then BackedUp(v, o, RethDb) else Pending(v, o, RethDb))
    && (if k > 1 then BackedUp(v, o, RethStatic) else Pending(v, o, RethStatic))
    && (if k > 2 then StoreBackedUp(v) else SavedSummit !in v)
    && (if k > 3 then BackedUp(v, o, CheckpointDir) else Pending(v, o, CheckpointDir))
    && (if k > 4 then BackedUp(v, o, StartConfig) else Pending(v, o, StartConfig))
    && (if k > 5 then BackedUp(v, o, Anchor) else Pending(v, o, Anchor))
  }

  function PartOf(p: Place): nat
    requires IsItem(p)
  {
    match p
    case RethDb => 0
    case RethStatic => 1
    case CheckpointDir => 3
    case StartConfig => 4
    case Anchor => 5
  }

  lemma ItemProgress(v: View, o: View, p: Place)
    requires IsItem(p) && Progress(v, o, PartOf(p))
    ensures p.RethDb? || p.RethStatic? || p.CheckpointDir? ==>
              Progress(BackUpMoved(v, p), o, PartOf(p) + 1)
    ensures p.StartConfig? || p.Anchor? ==> Progress(BackUpCopied(v, p), o, PartOf(p) + 1)
    ensures SameStage(v, BackUpMoved(v, p)) && SameStage(v, BackUpCopied(v, p))
  {
  }

  lemma StoreProgress(v: View, o: View)
    requires Progress(v, o, 2)
    ensures Progress(BackUpSummit(v), o, 3) && SameStage(v, BackUpSummit(v))
  {
  }

  /** Both input files are safely placed. */
  predicate SafeInputs(t: Node, at: Places) {
    SafeAt(t, at, StartConfig) && SafeAt(t, at, Anchor)
  }

  predicate SameStage(v: View, w: View) {
    SameAt(w, v, StagedDb) && SameAt(w, v, StagedStatic) && SameAt(w, v, StagedCheckpoint)
  }

  /** When every part is done, the backup is complete and the places are free. */
  lemma ProgressEnds(v: View, o: View)
    requires Recoverable(v, o) && Progress(v, o, 6)
    ensures AllSaved(v, o) && LiveFree(v) && v[SummitStore].entries.Keys <= {LOCK}
  {
    var saved, orig := v[SavedSummit].entries, o[SummitStore].entries;
    forall n
      ensures (n in saved <==> n in Unlocked(orig)) && (n in saved ==> saved[n] == Unlocked(orig)[n])
    {
      if n != LOCK {
        assert ChildKept(n, v[SummitStore].entries, Entries(v, SavedSummit), orig);
      }
    }
    assert saved == Unlocked(orig);
  }

  method BackUpNextItem(d: Disk, at: Places, p: Place, had: bool, ghost o: View)
    returns (r: Outcome)
    requires Separate(at) && SharedBackup(at) && IsItem(p)
    requires had == (p in o)
    requires Clear(d.root, at) && Recoverable(ViewOf(d.root, at), o)
    requires ReceiptFile in ViewOf(d.root, at)
    requires Progress(ViewOf(d.root, at), o, PartOf(p))
    modifies d
    ensures Clear(d.root, at) && Recoverable(ViewOf(d.root, at), o)
    ensures ParentsKept(old(d.root), d.root, at)
    ensures d.budget.Unlimited? <==> old(d.budget).Unlimited?
    ensures r == Stopped ==> !old(d.budget).Unlimited?
    ensures r == Refused ==> !SafeInputs(old(d.root), at) && (p.StartConfig? || p.Anchor?)
    ensures r == Done ==> Progress(ViewOf(d.root, at), o, PartOf(p) + 1)
    ensures r == Done ==> SameStage(ViewOf(old(d.root), at), ViewOf(d.root, at))
    ensures Untouched(ViewOf(old(d.root), at), ViewOf(d.root, at))
  {
    hide ViewOf, Recoverable, Untouched, BackUpMoved, BackUpCopied;
    ghost var v := ViewOf(d.root, at);
    ItemProgress(v, o, p);
    if p.StartConfig? || p.Anchor? {
      r := BackUpCopiedItem(d, at, p, had, o);
    } else {
      r := BackUpMovedItem(d, at, p, had, o);
    }
  }

  /**
   `backup_current_state`. Cut anywhere it leaves a recoverable state; complete,
   the backup holds everything and the live places are free.
   */
  method BackUpCurrentState(d: Disk, at: Places, prev: Previous, ghost o: View)
    returns (r: Outcome)
    requires Separate(at) && SharedBackup(at) && prev == FlagsOf(o)
    requires Clear(d.root, at) && Recoverable(ViewOf(d.root, at), o)
    requires ReceiptFile in ViewOf(d.root, at) && Progress(ViewOf(d.root, at), o, 0)
    modifies d
    ensures Clear(d.root, at) && Recoverable(ViewOf(d.root, at), o)
    ensures ParentsKept(old(d.root), d.root, at)
    ensures d.budget.Unlimited? <==> old(d.budget).Unlimited?
    ensures r == Stopped ==> !old(d.budget).Unlimited?
    ensures r == Refused ==> !SafeInputs(old(d.root), at)
    ensures r == Done ==>
              var w := ViewOf(d.root, at);
              AllSaved(w, o) && LiveFree(w) && w[SummitStore].entries.Keys <= {LOCK} &&
              SameStage(ViewOf(old(d.root), at), w)
    ensures Untouched(ViewOf(old(d.root), at), ViewOf(d.root, at))
  {
    ghost var v := ViewOf(d.root, at);
    r := BackUpReth(d, at, prev, o);
    if r != Done {
      return;
    }
    ghost var v2 := ViewOf(d.root, at);
    hide ViewOf, Recoverable, Untouched, Progress;
    ProgressHasStore(v2, o);
    r := BackUpChildren(d, at, o);
    ghost var v3 := ViewOf(d.root, at);
    UntouchedTransitive(v, v2, v3);
    if r != Done {
      return;
    }
    StoreProgress(v2, o);
    UntouchedReceipt(v, v3);
    r := BackUpInputs(d, at, prev, o);
    ghost var w := ViewOf(d.root, at);
    UntouchedTransitive(v, v3, w);
    if r == Done {
      ProgressEnds(w, o);
      SameStageTransitive(v, v2, v3, w);
    }
  }

  lemma ProgressHasStore(v: View, o: View)
    requires Progress(v, o, 2)
    ensures HasDir(v, SummitStore) && SavedSummit !in v
  {
  }

  lemma UntouchedReceipt(v: View, w: View)
    requires Untouched(v, w)
    ensures ReceiptFile in v ==> ReceiptFile in w
  {
  }

  lemma SameStageTransitive(t: View, u: View, v: View, w: View)
    requires SameStage(t, u) && SameStage(u, v) && SameStage(v, w)
    ensures SameStage(t, w)
  {
  }

  method BackUpReth(d: Disk, at: Places, prev: Previous, ghost o: View) returns (r: Outcome)
    requires Separate(at) && SharedBackup(at) && prev == FlagsOf(o)
    requires Clear(d.root, at) && Recoverable(ViewOf(d.root, at), o)
    requires ReceiptFile in ViewOf(d.root, at) && Progress(ViewOf(d.root, at), o, 0)
    modifies d
    ensures Clear(d.root, at) && Recoverable(ViewOf(d.root, at), o)
    ensures ParentsKept(old(d.root), d.root, at)
    ensures d.budget.Unlimited? <==> old(d.budget).Unlimited?
    ensures r == Stopped ==> !old(d.budget).Unlimited?
    ensures r != Refused
    ensures r == Done ==> Progress(ViewOf(d.root, at), o, 2)
    ensures r == Done ==> SameStage(ViewOf(old(d.root), at), ViewOf(d.root, at))
    ensures ReceiptFile in ViewOf(d.root, at)
    ensures Untouched(ViewOf(old(d.root), at), ViewOf(d.root, at))
  {
    hide ViewOf, Recoverable, Untouched, Progress;
    ghost var v := ViewOf(d.root, at);
    r := BackUpNextItem(d, at, RethDb, prev.rethDb, o);
    ghost var v1 := ViewOf(d.root, at);
    UntouchedReceipt(v, v1);
    if r != Done {
      return;
    }
    r := BackUpNextItem(d, at, RethStatic, prev.rethStatic, o);
    UntouchedTransitive(v, v1, ViewOf(d.root, at));
    UntouchedReceipt(v, ViewOf(d.root, at));
  }

  method BackUpInputs(d: Disk, at: Places, prev: Previous, ghost o: View) returns (r: Outcome)
    requires Separate(at) && SharedBackup(at) && prev == FlagsOf(o)
    requires Clear(d.root, at) && Recoverable(ViewOf(d.root, at), o)
    requires ReceiptFile in ViewOf(d.root, at) && Progress(ViewOf(d.root, at), o, 3)
    modifies d
    ensures Clear(d.root, at) && Recoverable(ViewOf(d.root, at), o)
    ensures ParentsKept(old(d.root), d.root, at)
    ensures d.budget.Unlimited? <==> old(d.budget).Unlimited?
    ensures r == Stopped ==> !old(d.budget).Unlimited?
    ensures r == Refused ==> !SafeInputs(old(d.root), at)
    ensures r == Done ==> Progress(ViewOf(d.root, at), o, 6)
    ensures r == Done ==> SameStage(ViewOf(old(d.root), at), ViewOf(d.root, at))
    ensures Untouched(ViewOf(old(d.root), at), ViewOf(d.root, at))
  {
    hide ViewOf, Recoverable, Untouched, Progress;
    ghost var v := ViewOf(d.root, at);
    r := BackUpNextItem(d, at, CheckpointDir, prev.checkpoint, o);
    ghost var v1 := ViewOf(d.root, at);
    UntouchedReceipt(v, v1);
    if r != Done {
      return;
    }
    r := BackUpNextItem(d, at, StartConfig, prev.config, o);
    ghost var v2 := ViewOf(d.root, at);
    UntouchedReceipt(v1, v2);
    UntouchedTransitive(v, v1, v2);
    if r != Done {
      return;
    }
    r := BackUpNextItem(d, at, Anchor, prev.weak, o);
    UntouchedTransitive(v, v2, ViewOf(d.root, at));
    if r == Done {
      SameStageTransitive(v, v1, v2, ViewOf(d.root, at));
    }
  }

  // ---------------------------------------------------------------------
  // Installing the new state
  // ---------------------------------------------------------------------

  lemma StagedMoved(v: View, o: View, src: Place, p: Place)
    requires Recoverable(v, o) && AllSaved(v, o)
    requires (src, p) in {(StagedDb, RethDb), (StagedStatic, RethStatic),
                          (StagedCheckpoint, CheckpointDir)}
    requires HasDir(v, src)
    ensures var w := (v - {src})[p := v[src]];
            Recoverable(w, o) && AllSaved(w, o) && Untouched(v, w)
  {
    var w := (v - {src})[p := v[src]];
    assert Entries(w, SavedSummit) == Entries(v, SavedSummit);
  }

  lemma InputWritten(v: View, o: View, p: Place, x: Node)
    requires Recoverable(v, o) && AllSaved(v, o) && (p.StartConfig? || p.Anchor?) && x.File?
    ensures Recoverable(v[p := x], o) && AllSaved(v[p := x], o) && Untouched(v, v[p := x])
  {
    LiveItemIsExpendable(v, v[p := x], o, p);
    SummitStays(v, v[p := x], o);
  }

  method InstallStaged(d: Disk, at: Places, src: Place, p: Place, ghost o: View)
    returns (r: Outcome)
    requires Separate(at) && Clear(d.root, at)
    requires Recoverable(ViewOf(d.root, at), o) && AllSaved(ViewOf(d.root, at), o)
    requires (src, p) in {(StagedDb, RethDb), (StagedStatic, RethStatic),
                          (StagedCheckpoint, CheckpointDir)}
    requires HasDir(ViewOf(d.root, at), src) && p !in ViewOf(d.root, at)
    modifies d
    ensures Clear(d.root, at)
    ensures ParentsKept(old(d.root), d.root, at)
    ensures Recoverable(ViewOf(d.root, at), o) && AllSaved(ViewOf(d.root, at), o)
    ensures d.budget.Unlimited? <==> old(d.budget).Unlimited?
    ensures r == Stopped ==> !old(d.budget).Unlimited?
    ensures r != Refused
    ensures r == Done ==>
              var v := ViewOf(old(d.root), at); ViewOf(d.root, at) == (v - {src})[p := v[src]]
    ensures Untouched(ViewOf(old(d.root), at), ViewOf(d.root, at))
  {
    hide ViewOf, Recoverable, Untouched, AllSaved;
    ghost var v := ViewOf(d.root, at);
    UntouchedSame(v);
    StagedMoved(v, o, src, p);
    r := MovePlace(d, at, src, p);
  }

  lemma FileOrNothing(v: View, o: View, p: Place)
    requires Recoverable(v, o) && (p.StartConfig? || p.Anchor?)
    ensures !NoFileAt(v, p)
  {
  }

  method InstallInput(d: Disk, at: Places, p: Place, content: Content, ghost o: View)
    returns (r: Outcome)
    requires Separate(at) && Clear(d.root, at)
    requires Recoverable(ViewOf(d.root, at), o) && AllSaved(ViewOf(d.root, at), o)
    requires p.StartConfig? || p.Anchor?
    modifies d
    ensures Clear(d.root, at)
    ensures ParentsKept(old(d.root), d.root, at)
    ensures Recoverable(ViewOf(d.root, at), o) && AllSaved(ViewOf(d.root, at), o)
    ensures d.budget.Unlimited? <==> old(d.budget).Unlimited?
    ensures r == Stopped ==> !old(d.budget).Unlimited?
    ensures r == Refused ==> !SafeInputs(old(d.root), at)
    ensures r == Done ==> SafeAt(d.root, at, p)
    ensures r == Done ==>
              ViewOf(d.root, at) == ViewOf(old(d.root), at)[p := File(content, PUBLIC_FILE)]
    ensures Untouched(ViewOf(old(d.root), at), ViewOf(d.root, at))
  {
    hide ViewOf, Recoverable, Untouched, AllSaved;
    ghost var v := ViewOf(d.root, at);
    UntouchedSame(v);
    InputWritten(v, o, p, File(content, PUBLIC_FILE));
    FileOrNothing(v, o, p);
    r := WritePlace(d, at, p, content, PUBLIC_FILE);
  }

  /** The staged trees are live, and what else is written later is as it was. */
  predicate TreesInstalled(v: View, before: View) {
    && StagedReady(before)
    && RethDb in v && v[RethDb] == before[StagedDb]
    && RethStatic in v && v[RethStatic] == before[StagedStatic]
    && CheckpointDir in v && v[CheckpointDir] == before[StagedCheckpoint]
  }

  method InstallStagedTrees(d: Disk, at: Places, ghost o: View) returns (r: Outcome)
    requires Separate(at) && Clear(d.root, at)
    requires Recoverable(ViewOf(d.root, at), o) && AllSaved(ViewOf(d.root, at), o)
    requires LiveFree(ViewOf(d.root, at)) && StagedReady(ViewOf(d.root, at))
    modifies d
    ensures Clear(d.root, at)
    ensures ParentsKept(old(d.root), d.root, at)
    ensures Recoverable(ViewOf(d.root, at), o) && AllSaved(ViewOf(d.root, at), o)
    ensures d.budget.Unlimited? <==> old(d.budget).Unlimited?
    ensures r == Stopped ==> !old(d.budget).Unlimited?
    ensures r != Refused
    ensures r == Done ==> TreesInstalled(ViewOf(d.root, at), ViewOf(old(d.root), at))
    ensures Untouched(ViewOf(old(d.root), at), ViewOf(d.root, at))
  {
    hide ViewOf, Recoverable, Untouched, AllSaved;
    ghost var v := ViewOf(d.root, at);
    r := InstallStaged(d, at, StagedDb, RethDb, o);
    ghost var v1 := ViewOf(d.root, at);
    if r != Done {
      return;
    }
    r := InstallStaged(d, at, StagedStatic, RethStatic, o);
    ghost var v2 := ViewOf(d.root, at);
    UntouchedTransitive(v, v1, v2);
    if r != Done {
      return;
    }
    r := InstallStaged(d, at, StagedCheckpoint, CheckpointDir, o);
    UntouchedTransitive(v, v2, ViewOf(d.root, at));
  }

  /** When every child is saved, and each one in one place, the store is empty but for the lock. */
  lemma StoreEmptied(v: View, o: View)
    requires Recoverable(v, o) && AllSaved(v, o)
    ensures HasDir(v, SummitStore) && v[SummitStore].entries.Keys <= {LOCK}
  {
    var live, orig := v[SummitStore].entries, o[SummitStore].entries;
    forall n | n in live
      ensures n == LOCK
    {
      assert n != LOCK ==> ChildKept(n, live, Entries(v, SavedSummit), orig);
      assert n != LOCK && n in orig ==> n in Unlocked(orig);
    }
  }

  /**
   `install_new_state`. Cut anywhere it leaves a recoverable state; complete,
   the staged trees and the two written files are live. `anchor` is what the
   anchor file holds when it is read again after the trees have moved, if it is
   still there.
   */
  method InstallNewState(d: Disk, at: Places, live: LivePaths, anchor: Option<Content>,
                         ghost o: View)
    returns (r: Outcome)
    requires Separate(at) && Clear(d.root, at)
    requires Recoverable(ViewOf(d.root, at), o) && AllSaved(ViewOf(d.root, at), o)
    requires LiveFree(ViewOf(d.root, at)) && StagedReady(ViewOf(d.root, at))
    modifies d
    ensures Clear(d.root, at)
    ensures ParentsKept(old(d.root), d.root, at)
    ensures Recoverable(ViewOf(d.root, at), o) && AllSaved(ViewOf(d.root, at), o)
    ensures d.budget.Unlimited? <==> old(d.budget).Unlimited?
    ensures r == Stopped ==> !old(d.budget).Unlimited?
    ensures r == Refused ==> !SafeInputs(old(d.root), at) || anchor.None?
    ensures r == Done ==> SafeInputs(d.root, at) && anchor.Some?
    ensures r == Done ==>
              NewStateInstalled(ViewOf(d.root, at), ViewOf(old(d.root), at), live, anchor.value)
    ensures Untouched(ViewOf(old(d.root), at), ViewOf(d.root, at))
  {
    hide ViewOf, Recoverable, Untouched, AllSaved;
    ghost var v := ViewOf(d.root, at);
    r := InstallStagedTrees(d, at, o);
    ghost var v1 := ViewOf(d.root, at);
    if r != Done {
      return;
    }
    if anchor.None? {
      return Refused;
    }
    r := InstallInput(d, at, Anchor, anchor.value, o);
    ghost var v2 := ViewOf(d.root, at);
    UntouchedTransitive(v, v1, v2);
    if r != Done {
      return;
    }
    r := InstallInput(d, at, StartConfig, StartConfigToml(live.checkpoint, live.weak), o);
    UntouchedTransitive(v, v2, ViewOf(d.root, at));
    StoreEmptied(ViewOf(d.root, at), o);
  }
}
