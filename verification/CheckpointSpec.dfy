/**
 What the checkpoint transaction promises, stated on views of the filesystem:
 when a backup can still be restored, what a restoration yields, and when a
 receipt tells the truth.
 */
module CheckpointSpec {
  import opened Base
  import opened FileTree
  import opened Layouts

  /** The five items that are replaced as a whole; Summit's children are the sixth. */
  predicate IsItem(p: Place) {
    p.RethDb? || p.RethStatic? || p.CheckpointDir? || p.StartConfig? || p.Anchor?
  }

  function SavedOf(p: Place): Place
    requires IsItem(p)
  {
    match p
    case RethDb => SavedDb
    case RethStatic => SavedStatic
    case CheckpointDir => SavedCheckpoint
    case StartConfig => SavedConfig
    case Anchor => SavedAnchor
  }

  function Had(prev: Previous, p: Place): bool
    requires IsItem(p)
  {
    match p
    case RethDb => prev.rethDb
    case RethStatic => prev.rethStatic
    case CheckpointDir => prev.checkpoint
    case StartConfig => prev.config
    case Anchor => prev.weak
  }

  function FlagsOf(o: View): Previous {
    Previous(RethDb in o, RethStatic in o, CheckpointDir in o, StartConfig in o, Anchor in o)
  }

  function Unlocked(entries: map<Name, Node>): map<Name, Node> {
    entries - {LOCK}
  }

  function OnlyLock(entries: map<Name, Node>): map<Name, Node> {
    if LOCK in entries then map[LOCK := entries[LOCK]] else map[]
  }

  function Entries(v: View, p: Place): map<Name, Node> {
    if HasDir(v, p) then v[p].entries else map[]
  }

  /** A regular file, not empty, that only its owner may change. */
  predicate ManagedFile(n: Node) {
    n.File? && n.content != Bytes([]) && !SharedWritable(n.mode)
  }

  /**
   The state the path checks accept: directories where directories are
   replaced, managed files where files are, and a Summit store.
   */
  predicate ValidTargets(o: View) {
    && (RethDb in o ==> o[RethDb].Dir?)
    && (RethStatic in o ==> o[RethStatic].Dir?)
    && (CheckpointDir in o ==> o[CheckpointDir].Dir?)
    && (StartConfig in o ==> ManagedFile(o[StartConfig]))
    && (Anchor in o ==> ManagedFile(o[Anchor]))
    && HasDir(o, SummitStore)
    && HasDir(o, SummitKeys)
  }

  /** An item is live, or saved, exactly as it was; an absent one is not saved. */
  predicate ItemKept(v: View, o: View, p: Place)
    requires IsItem(p)
  {
    var s := SavedOf(p);
    if p !in o then s !in v
    else if s in v then v[s] == o[p]
    else p in v && v[p] == o[p]
  }

  /** A child of the Summit store is in exactly one of its two places. */
  predicate ChildKept(n: Name, live: map<Name, Node>, saved: map<Name, Node>,
                      orig: map<Name, Node>)
  {
    if n !in orig then n !in live && n !in saved
    else if n in saved then n !in live && saved[n] == orig[n]
    else n in live && live[n] == orig[n]
  }

  ghost predicate SummitKept(v: View, o: View) {
    && HasDir(v, SummitStore) && HasDir(o, SummitStore)
    && (SavedSummit in v ==> v[SavedSummit].Dir?)
    && LOCK !in Entries(v, SavedSummit)
    && forall n :: n != LOCK ==>
         ChildKept(n, v[SummitStore].entries, Entries(v, SavedSummit), o[SummitStore].entries)
  }

  /** Nothing an atomic file replacement would refuse. */
  predicate Replaceable(v: View) {
    !NoFileAt(v, StartConfig) && !NoFileAt(v, Anchor)
  }

  /** None of the paths a receipt records is a link. */
  predicate NoLinks(v: View) {
    && !LinkAt(v, SummitStore) && !LinkAt(v, SummitKeys) && !LinkAt(v, CheckpointDir)
    && !LinkAt(v, StartConfig) && !LinkAt(v, Anchor)
  }

  /** The Summit lock can be acquired: its file is there, or can be created in the store. */
  predicate Lockable(v: View) {
    HasDir(v, SummitStore) &&
    (LOCK in v[SummitStore].entries ==> v[SummitStore].entries[LOCK].File?)
  }

  /** What is checked of the live paths before anything is moved back. */
  predicate Enterable(v: View) {
    NoLinks(v) && Lockable(v)
  }

  /** None of the five items is lost. */
  predicate ItemsKept(v: View, o: View) {
    && ValidTargets(o)
    && ItemKept(v, o, RethDb) && ItemKept(v, o, RethStatic) && ItemKept(v, o, CheckpointDir)
    && ItemKept(v, o, StartConfig) && ItemKept(v, o, Anchor)
  }

  /** A restoration of an interrupted installation is still possible. */
  ghost predicate Recoverable(v: View, o: View) {
    ItemsKept(v, o) && Replaceable(v) && SummitKept(v, o)
  }

  /** Every original child of the Summit store is still in the backup. */
  predicate SummitSaved(v: View, o: View) {
    (SavedSummit in v ==> v[SavedSummit].Dir?) &&
    Entries(v, SavedSummit) == Unlocked(Entries(o, SummitStore))
  }

  /**
   What a rollback of an installed checkpoint keeps wherever it is cut: no item
   is lost, and the children are all in the backup still, or each of them is in
   exactly one of store and backup.
   */
  ghost predicate RollbackCut(v: View, o: View) {
    ItemsKept(v, o) && (SummitSaved(v, o) || SummitKept(v, o))
  }

  /** An input file that would have to be written over something else. */
  predicate Blocked(v: View, p: Place)
    requires IsItem(p)
  {
    SavedOf(p) in v && NoFileAt(v, p)
  }

  predicate InputsBlocked(v: View) {
    Blocked(v, StartConfig) || Blocked(v, Anchor)
  }

  /** The six replaced items are as they were, content and permission bits. */
  predicate Restored(v: View, o: View) {
    && SameAt(v, o, RethDb) && SameAt(v, o, RethStatic) && SameAt(v, o, CheckpointDir)
    && SameAt(v, o, StartConfig) && SameAt(v, o, Anchor)
    && HasDir(v, SummitStore) && HasDir(o, SummitStore)
    && Unlocked(v[SummitStore].entries) == Unlocked(o[SummitStore].entries)
  }

  predicate ItemSaved(v: View, o: View, p: Place)
    requires IsItem(p)
  {
    var s := SavedOf(p);
    (s in v <==> p in o) && (s in v ==> v[s] == o[p])
  }

  predicate ItemsSaved(v: View, o: View) {
    && ItemSaved(v, o, RethDb) && ItemSaved(v, o, RethStatic) && ItemSaved(v, o, CheckpointDir)
    && ItemSaved(v, o, StartConfig) && ItemSaved(v, o, Anchor)
  }

  /** The backup holds everything that was replaced. */
  predicate AllSaved(v: View, o: View) {
    && ValidTargets(o)
    && ItemsSaved(v, o)
    && HasDir(v, SavedSummit) && SummitSaved(v, o)
  }

  // ---------------------------------------------------------------------
  // What a complete restoration does
  // ---------------------------------------------------------------------

  /** A moved item: back from the backup, or removed when there was none. */
  function RestoreMoved(v: View, p: Place, had: bool): View
    requires IsItem(p)
  {
    var s := SavedOf(p);
    if s in v then (v - {s})[p := v[s]] else if had then v else v - {p}
  }

  /** A copied file: rewritten from the copy, which stays, or removed. */
  function RestoreCopied(v: View, p: Place, had: bool): View
    requires IsItem(p)
  {
    var s := SavedOf(p);
    if s in v then v[p := v[s]] else if had then v else v - {p}
  }

  /** The Summit store loses its new children, when asked, and regains the saved ones. */
  function RestoreSummit(v: View, removeNew: bool): View
    requires HasDir(v, SummitStore)
  {
    var store := v[SummitStore];
    var kept := if removeNew then OnlyLock(store.entries) else store.entries;
    var v' := v[SummitStore := store.(entries := kept + Entries(v, SavedSummit))];
    if HasDir(v, SavedSummit) then v'[SavedSummit := v[SavedSummit].(entries := map[])] else v'
  }

  function RestoreReth(v: View, prev: Previous): View {
    RestoreMoved(RestoreMoved(v, RethDb, prev.rethDb), RethStatic, prev.rethStatic)
  }

  function RestoreInputs(v: View, prev: Previous): View {
    RestoreCopied(
      RestoreCopied(RestoreMoved(v, CheckpointDir, prev.checkpoint), StartConfig, prev.config),
      Anchor, prev.weak)
  }

  function RestoreView(v: View, prev: Previous, removeNew: bool): View
    requires HasDir(v, SummitStore)
  {
    RestoreInputs(RestoreSummit(RestoreReth(v, prev), removeNew), prev)
  }

  /** What a complete restoration leaves at an item. */
  function ItemAfter(v: View, prev: Previous, p: Place): Option<Node>
    requires IsItem(p)
  {
    if SavedOf(p) in v then Some(v[SavedOf(p)])
    else if Had(prev, p) && p in v then Some(v[p])
    else None
  }

  predicate Holds(v: View, p: Place, x: Option<Node>) {
    if x.Some? then p in v && v[p] == x.value else p !in v
  }

  lemma RestoreRethAt(v: View, prev: Previous)
    ensures var w := RestoreReth(v, prev);
            && Holds(w, RethDb, ItemAfter(v, prev, RethDb))
            && Holds(w, RethStatic, ItemAfter(v, prev, RethStatic))
            && SavedDb !in w && SavedStatic !in w
            && forall q: Place :: q.RethDb? || q.RethStatic? || q.SavedDb? || q.SavedStatic? ||
                 SameAt(w, v, q)
  {
  }

  lemma RestoreInputsAt(v: View, prev: Previous)
    ensures var w := RestoreInputs(v, prev);
            && Holds(w, CheckpointDir, ItemAfter(v, prev, CheckpointDir))
            && Holds(w, StartConfig, ItemAfter(v, prev, StartConfig))
            && Holds(w, Anchor, ItemAfter(v, prev, Anchor))
            && SavedCheckpoint !in w
            && forall q: Place :: q.SavedCheckpoint? || q.CheckpointDir? || q.StartConfig? ||
                 q.Anchor? || SameAt(w, v, q)
  {
  }

  lemma SameItem(v: View, v2: View, v3: View, prev: Previous, p: Place)
    requires IsItem(p) && !p.RethDb? && !p.RethStatic?
    requires forall q: Place :: q.RethDb? || q.RethStatic? || q.SavedDb? || q.SavedStatic? ||
               SameAt(v2, v, q)
    requires forall q: Place :: q.SummitStore? || q.SavedSummit? || SameAt(v3, v2, q)
    ensures ItemAfter(v3, prev, p) == ItemAfter(v, prev, p)
  {
    assert SameAt(v2, v, p) && SameAt(v2, v, SavedOf(p));
    assert SameAt(v3, v2, p) && SameAt(v3, v2, SavedOf(p));
  }

  lemma RestoreSummitAt(v: View, removeNew: bool)
    requires HasDir(v, SummitStore)
    ensures forall q: Place :: q.SummitStore? || q.SavedSummit? ||
              SameAt(RestoreSummit(v, removeNew), v, q)
  {
  }

  /** A complete restoration, at the five items. */
  lemma RestoredItems(v: View, prev: Previous, removeNew: bool)
    requires HasDir(v, SummitStore)
    ensures var w := RestoreView(v, prev, removeNew);
            && Holds(w, RethDb, ItemAfter(v, prev, RethDb))
            && Holds(w, RethStatic, ItemAfter(v, prev, RethStatic))
            && Holds(w, CheckpointDir, ItemAfter(v, prev, CheckpointDir))
            && Holds(w, StartConfig, ItemAfter(v, prev, StartConfig))
            && Holds(w, Anchor, ItemAfter(v, prev, Anchor))
  {
    hide RestoreReth, RestoreInputs;
    var v2 := RestoreReth(v, prev);
    RestoreRethAt(v, prev);
    assert SameAt(v2, v, SummitStore);
    var v3 := RestoreSummit(v2, removeNew);
    RestoreSummitAt(v2, removeNew);
    hide RestoreSummit;
    RestoreInputsAt(v3, prev);
    var w := RestoreInputs(v3, prev);
    assert SameAt(v3, v2, RethDb) && SameAt(v3, v2, RethStatic);
    assert SameAt(w, v3, RethDb) && SameAt(w, v3, RethStatic);
    SameItem(v, v2, v3, prev, CheckpointDir);
    SameItem(v, v2, v3, prev, StartConfig);
    SameItem(v, v2, v3, prev, Anchor);
  }

  /** A complete restoration, at the Summit store and the other places. */
  lemma RestoredRest(v: View, prev: Previous, removeNew: bool)
    requires HasDir(v, SummitStore)
    ensures var w, u := RestoreView(v, prev, removeNew), RestoreSummit(v, removeNew);
            && HasDir(w, SummitStore) && w[SummitStore] == u[SummitStore]
            && SameAt(w, u, SavedSummit)
            && SavedDb !in w && SavedStatic !in w && SavedCheckpoint !in w
            && SameAt(w, v, SavedConfig) && SameAt(w, v, SavedAnchor)
            && SameAt(w, v, SummitKeys) && SameAt(w, v, ReceiptFile)
  {
    hide RestoreReth, RestoreInputs;
    var v2 := RestoreReth(v, prev);
    RestoreRethAt(v, prev);
    assert SameAt(v2, v, SummitStore) && SameAt(v2, v, SavedSummit);
    assert SameAt(v2, v, SavedConfig) && SameAt(v2, v, SavedAnchor);
    assert SameAt(v2, v, SummitKeys) && SameAt(v2, v, ReceiptFile);
    var v3 := RestoreSummit(v2, removeNew);
    RestoreInputsAt(v3, prev);
    var w := RestoreInputs(v3, prev);
    assert SameAt(w, v3, SummitStore) && SameAt(w, v3, SavedSummit);
    assert SameAt(w, v3, SavedConfig) && SameAt(w, v3, SavedAnchor);
    assert SameAt(w, v3, SummitKeys) && SameAt(w, v3, ReceiptFile);
    assert SameAt(w, v3, SavedDb) && SameAt(w, v3, SavedStatic);
  }

  // ---------------------------------------------------------------------
  // The children of the Summit store
  // ---------------------------------------------------------------------

  lemma ChildrenBack(live: map<Name, Node>, saved: map<Name, Node>, orig: map<Name, Node>)
    requires LOCK !in saved
    requires forall n :: n != LOCK ==> ChildKept(n, live, saved, orig)
    ensures Unlocked(live + saved) == Unlocked(orig)
    ensures forall n :: n != LOCK ==> ChildKept(n, live + saved, map[], orig)
  {
    var all := live + saved;
    forall n | n != LOCK
      ensures (n in all <==> n in orig) && (n in all ==> all[n] == orig[n])
    {
      assert ChildKept(n, live, saved, orig);
    }
  }

  lemma OnlySavedChildren(live: map<Name, Node>, saved: map<Name, Node>)
    requires LOCK !in saved
    ensures Unlocked(OnlyLock(live) + saved) == saved
    ensures (OnlyLock(live) + saved).Keys <= saved.Keys + {LOCK}
    ensures LOCK in OnlyLock(live) + saved <==> LOCK in live
  {
  }

  // ---------------------------------------------------------------------
  // Main results on complete restorations
  // ---------------------------------------------------------------------

  /** Restoring an interrupted installation gives back the original items. */
  lemma RestorationUndoesInstall(v: View, o: View)
    requires Recoverable(v, o)
    ensures Restored(RestoreView(v, FlagsOf(o), false), o)
    ensures Recoverable(RestoreView(v, FlagsOf(o), false), o)
    ensures Entries(RestoreView(v, FlagsOf(o), false), SavedSummit) == map[]
  {
    ChildrenBack(v[SummitStore].entries, Entries(v, SavedSummit), o[SummitStore].entries);
    RestoredItems(v, FlagsOf(o), false);
    RestoredRest(v, FlagsOf(o), false);
    hide RestoreView;
  }

  /**
   After a completed installation, and whatever happened to the live places
   since, one complete rollback gives back the original items, and the Summit
   store holds nothing else but the lock.
   */
  lemma RollbackUndoesInstalled(v: View, o: View)
    requires AllSaved(v, o) && HasDir(v, SummitStore)
    ensures var w := RestoreView(v, FlagsOf(o), true);
            Restored(w, o) &&
            w[SummitStore].entries.Keys <= o[SummitStore].entries.Keys + {LOCK} &&
            (LOCK in w[SummitStore].entries <==> LOCK in v[SummitStore].entries)
  {
    OnlySavedChildren(v[SummitStore].entries, v[SavedSummit].entries);
    RestoredItems(v, FlagsOf(o), true);
    RestoredRest(v, FlagsOf(o), true);
    hide RestoreView;
  }

  /** A fully saved state is one a rollback may be cut in: before its first step. */
  lemma AllSavedIsCut(v: View, o: View)
    requires AllSaved(v, o)
    ensures RollbackCut(v, o) && SummitSaved(v, o) && LOCK !in Entries(v, SavedSummit)
  {
  }

  /** Wherever a rollback is cut, no original child is lost. */
  lemma NoChildLost(v: View, o: View, n: Name)
    requires RollbackCut(v, o) && n in Unlocked(Entries(o, SummitStore))
    ensures var child := o[SummitStore].entries[n];
            if n in Entries(v, SavedSummit) then Entries(v, SavedSummit)[n] == child
            else n in Entries(v, SummitStore) && Entries(v, SummitStore)[n] == child
  {
    if SummitKept(v, o) {
      assert ChildKept(n, v[SummitStore].entries, Entries(v, SavedSummit), o[SummitStore].entries);
    } else {
      assert Entries(v, SavedSummit)[n] == Unlocked(Entries(o, SummitStore))[n];
    }
  }

  lemma NoLockSaved(v: View, o: View)
    requires SummitSaved(v, o) || SummitKept(v, o)
    ensures LOCK !in Entries(v, SavedSummit)
  {
  }

  /**
   Where a rollback of an `installed` receipt was cut, running it again and to
   its end gives back all six items exactly when every original child is still
   in the backup.
   */
  lemma RollbackNeedsEveryChild(w: View, o: View)
    requires RollbackCut(w, o) && HasDir(w, SummitStore)
    ensures Restored(RestoreView(w, FlagsOf(o), true), o) <==> SummitSaved(w, o)
  {
    NoLockSaved(w, o);
    OnlySavedChildren(w[SummitStore].entries, Entries(w, SavedSummit));
    SavedSummitIsDir(w, o);
    RestoredItems(w, FlagsOf(o), true);
    RestoredRest(w, FlagsOf(o), true);
    hide RestoreView;
  }

  lemma SavedSummitIsDir(w: View, o: View)
    requires RollbackCut(w, o)
    ensures SavedSummit in w ==> w[SavedSummit].Dir?
  {
  }

  /**
   What an operator can check: from a fully saved state `v`, a rollback cut in
   `w` may be run again exactly when the backup of the store lists the same
   children as before, that is, when no child has been moved back yet.
   */
  lemma RunAgainWhileNoneReturned(v: View, w: View, o: View)
    requires AllSaved(v, o) && RollbackCut(w, o) && HasDir(w, SummitStore)
    ensures Restored(RestoreView(w, FlagsOf(o), true), o) <==>
            Entries(w, SavedSummit).Keys == Entries(v, SavedSummit).Keys
  {
    RollbackNeedsEveryChild(w, o);
    hide RestoreView, FlagsOf, Restored;
    if Entries(w, SavedSummit).Keys == Entries(v, SavedSummit).Keys {
      forall n | n in Entries(w, SavedSummit)
        ensures Entries(w, SavedSummit)[n] == Unlocked(Entries(o, SummitStore))[n]
      {
        NoChildLost(w, o, n);
      }
      SavedSummitIsDir(w, o);
    }
  }

  /** Once a child has been moved back, restoring without removing children is what works. */
  lemma ReturnedChildrenStay(w: View, o: View)
    requires RollbackCut(w, o) && !SummitSaved(w, o) && Replaceable(w)
    ensures Restored(RestoreView(w, FlagsOf(o), false), o)
  {
    RestorationUndoesInstall(w, o);
  }

  /** The Summit part of a rollback cut right after it moved child `n` back. */
  function CutAfterChild(v: View, n: Name): View
    requires HasDir(v, SummitStore) && HasDir(v, SavedSummit) && n in v[SavedSummit].entries
  {
    var saved := v[SavedSummit].entries;
    v[SummitStore := v[SummitStore].(entries := OnlyLock(v[SummitStore].entries)[n := saved[n]])]
     [SavedSummit := WithoutEntry(v[SavedSummit], n)]
  }

  lemma RethLeavesSummit(v: View, prev: Previous)
    ensures var u := RestoreReth(v, prev);
            SameAt(u, v, SummitStore) && SameAt(u, v, SavedSummit)
  {
    RestoreRethAt(v, prev);
  }

  /** After the Reth items, every item is still kept. */
  lemma RethKeepsItems(v: View, o: View)
    requires ItemsKept(v, o)
    ensures ItemsKept(RestoreReth(v, FlagsOf(o)), o)
  {
    var w := RestoreReth(v, FlagsOf(o));
    RestoreRethAt(v, FlagsOf(o));
    hide RestoreReth;
    assert SameAt(w, v, CheckpointDir) && SameAt(w, v, SavedCheckpoint);
    assert SameAt(w, v, StartConfig) && SameAt(w, v, SavedConfig);
    assert SameAt(w, v, Anchor) && SameAt(w, v, SavedAnchor);
  }

  /** Such a state keeps everything, and running the rollback again loses the child for good. */
  lemma CutRollbackLosesChild(v: View, o: View, n: Name)
    requires AllSaved(v, o) && HasDir(v, SummitStore) && n in v[SavedSummit].entries
    ensures var u := RestoreReth(v, FlagsOf(o));
            && HasDir(u, SummitStore) && HasDir(u, SavedSummit) && n in u[SavedSummit].entries
            && var c := CutAfterChild(u, n);
              && RollbackCut(c, o) && HasDir(c, SummitStore)
              && var w := RestoreView(c, FlagsOf(o), true);
                n in o[SummitStore].entries && n !in Entries(w, SummitStore) &&
                n !in Entries(w, SavedSummit) && !Restored(w, o)
  {
    var u := RestoreReth(v, FlagsOf(o));
    RethLeavesSummit(v, FlagsOf(o));
    AllSavedIsCut(v, o);
    RethKeepsItems(v, o);
    hide RestoreReth;
    var c := CutAfterChild(u, n);
    CutKeepsItems(u, o, n);
    CutKeepsChildren(u, o, n);
    OnlySavedChildren(c[SummitStore].entries, c[SavedSummit].entries);
    RestoredRest(c, FlagsOf(o), true);
    hide RestoreView, FlagsOf, ItemsKept, SummitKept;
    assert n in Unlocked(o[SummitStore].entries);
    var w := RestoreView(c, FlagsOf(o), true);
    assert n !in Unlocked(w[SummitStore].entries);
  }

  lemma CutKeepsItems(u: View, o: View, n: Name)
    requires HasDir(u, SummitStore) && HasDir(u, SavedSummit) && n in u[SavedSummit].entries
    requires ItemsKept(u, o)
    ensures ItemsKept(CutAfterChild(u, n), o)
  {
  }

  lemma CutKeepsChildren(u: View, o: View, n: Name)
    requires HasDir(u, SummitStore) && HasDir(u, SavedSummit) && n in u[SavedSummit].entries
    requires HasDir(o, SummitStore) && SummitSaved(u, o)
    ensures SummitKept(CutAfterChild(u, n), o)
  {
    var c := CutAfterChild(u, n);
    var orig := o[SummitStore].entries;
    assert forall m :: m in Unlocked(orig) <==> m in orig && m != LOCK;
    forall m | m != LOCK
      ensures ChildKept(m, c[SummitStore].entries, Entries(c, SavedSummit), orig)
    {
      assert m in u[SavedSummit].entries <==> m in orig;
      assert m in orig ==> u[SavedSummit].entries[m] == Unlocked(orig)[m] == orig[m];
    }
  }

  // ---------------------------------------------------------------------
  // Backing up and installing
  // ---------------------------------------------------------------------

  /** Nothing has been saved yet. */
  predicate NothingInBackup(v: View) {
    SavedDb !in v && SavedStatic !in v && SavedSummit !in v && SavedCheckpoint !in v &&
    SavedConfig !in v && SavedAnchor !in v
  }

  function BackUpMoved(v: View, p: Place): View
    requires IsItem(p)
  {
    if p in v then (v - {p})[SavedOf(p) := v[p]] else v
  }

  function BackUpCopied(v: View, p: Place): View
    requires IsItem(p)
  {
    if p in v then v[SavedOf(p) := v[p]] else v
  }

  function BackUpSummit(v: View): View
    requires HasDir(v, SummitStore)
  {
    var store := v[SummitStore];
    v[SummitStore := store.(entries := OnlyLock(store.entries))]
     [SavedSummit := Dir(0x1C0, Unlocked(store.entries))]
  }

  /** Permission bits of directories, files and inputs the installer creates. */
  const PRIVATE_DIR: nat := 0x1C0
  const PRIVATE_FILE: nat := 0x180
  const PUBLIC_FILE: nat := 0x1A4

  predicate StagedReady(v: View) {
    HasDir(v, StagedDb) && HasDir(v, StagedStatic) && HasDir(v, StagedCheckpoint)
  }

  /** Where the moved items have to be free for the new state. */
  predicate LiveFree(v: View) {
    RethDb !in v && RethStatic !in v && CheckpointDir !in v
  }

  /** The new state is in place and the old one in the backup. */
  predicate NewStateInstalled(v: View, before: View, live: LivePaths, anchor: Content) {
    && StagedReady(before)
    && RethDb in v && v[RethDb] == before[StagedDb]
    && RethStatic in v && v[RethStatic] == before[StagedStatic]
    && CheckpointDir in v && v[CheckpointDir] == before[StagedCheckpoint]
    && Anchor in v && v[Anchor] == File(anchor, 0x1A4)
    && StartConfig in v
    && v[StartConfig] == File(StartConfigToml(live.checkpoint, live.weak), 0x1A4)
    && HasDir(v, SummitStore) && v[SummitStore].entries.Keys <= {LOCK}
  }

  // ---------------------------------------------------------------------
  // Receipts
  // ---------------------------------------------------------------------

  predicate ReceiptIs(v: View, r: Receipt) {
    ReceiptFile in v && ManagedFile(v[ReceiptFile]) &&
    v[ReceiptFile].content == ReceiptJson(r)
  }

  /** What the state recorded in a receipt promises about the filesystem. */
  ghost predicate Honest(v: View, o: View, r: Receipt) {
    ReceiptIs(v, r) && r.previous == FlagsOf(o) &&
    match r.state
    case Installing => Recoverable(v, o)
    case Installed => AllSaved(v, o)
    case AutomaticallyRolledBack => Restored(v, o)
    case RolledBack => Restored(v, o)
  }

  /** Writing the receipt changes none of the promises about the other places. */
  lemma ReceiptWritten(v: View, o: View, x: Node)
    ensures var w := v[ReceiptFile := x];
            (Recoverable(w, o) <==> Recoverable(v, o)) &&
            (AllSaved(w, o) <==> AllSaved(v, o)) && (Restored(w, o) <==> Restored(v, o))
  {
    var w := v[ReceiptFile := x];
    assert Entries(w, SavedSummit) == Entries(v, SavedSummit);
    assert Entries(w, SummitStore) == Entries(v, SummitStore);
  }

  predicate RollbackEligible(s: ReceiptState) {
    s.Installed? || s.Installing?
  }

  /** `delete_backup` accepts these states only. */
  predicate Deletable(s: ReceiptState) {
    s.Installed? || s.RolledBack? || s.AutomaticallyRolledBack?
  }
}
