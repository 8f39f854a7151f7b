/**
 What happens between an installation and its rollback: services write, replace
 and erase whatever they like at and below the live places, and the rollback
 still gives back the state from before the installation.
 */
module ServiceRun {
  import opened Base
  import opened FileTree
  import opened Disks
  import opened Fsutil
  import opened Layouts
  import opened CheckpointSpec
  import opened RealPaths
  import opened Restore
  import opened Install
  import opened Transaction

  /** One change at a path below a live place. */
  datatype Change =
    | Write(place: Place, below: Path, node: Node)
    | Erase(place: Place, below: Path)

  predicate IsLive(p: Place) {
    IsItem(p) || p.SummitStore?
  }

  /** The tree after the change; a change that is not possible does nothing. */
  function Changed(t: Node, at: Places, c: Change): Node {
    var p := at[c.place] + c.below;
    if !IsLive(c.place) then t
    else if c.Write? then (if CanPut(t, p) then Put(t, p, c.node) else t)
    else if p != [] then Del(t, p)
    else t
  }

  function AllChanged(t: Node, at: Places, changes: seq<Change>): Node
    decreases |changes|
  {
    if changes == [] then t else AllChanged(Changed(t, at, changes[0]), at, changes[1..])
  }

  /** Both views hold the same backup, receipt and keys. */
  predicate SameBackup(v: View, w: View) {
    && SameAt(v, w, SavedDb) && SameAt(v, w, SavedStatic) && SameAt(v, w, SavedSummit)
    && SameAt(v, w, SavedCheckpoint) && SameAt(v, w, SavedConfig) && SameAt(v, w, SavedAnchor)
    && SameAt(v, w, ReceiptFile) && SameAt(v, w, SummitKeys)
  }

  lemma ChangeKeepsBackup(t: Node, at: Places, c: Change)
    requires Separate(at) && Clear(t, at)
    ensures Clear(Changed(t, at, c), at)
    ensures SameBackup(ViewOf(Changed(t, at, c), at), ViewOf(t, at))
  {
    hide ViewOf, SameAt, Clear;
    var u, a, p := Changed(t, at, c), c.place, at[c.place] + c.below;
    forall b: Place | !IsLive(b)
      ensures SameAt(ViewOf(u, at), ViewOf(t, at), b)
    {
      if u == t {
        SameAsItself(ViewOf(t, at), b);
      } else {
        if c.Write? {
          PutSameElsewhere(t, at, a, c.below, c.node);
        } else {
          DelSameElsewhere(t, at, a, c.below);
        }
        SameViewElsewhere(t, u, at, a, b);
      }
    }
    if u != t {
      if c.Write? {
        ClearAfterPut(t, at, a, c.below, c.node);
      } else {
        ClearAfterDel(t, at, a, c.below);
      }
    }
  }

  lemma SameAsItself(v: View, b: Place)
    ensures SameAt(v, v, b)
  {
  }

  /** No run of services touches the backup. */
  lemma {:induction false} ServicesKeepBackup(t: Node, at: Places, changes: seq<Change>)
    requires Separate(at) && Clear(t, at)
    ensures Clear(AllChanged(t, at, changes), at)
    ensures SameBackup(ViewOf(AllChanged(t, at, changes), at), ViewOf(t, at))
    decreases |changes|
  {
    hide ViewOf, Clear, Changed, Separate;
    if changes != [] {
      var u := Changed(t, at, changes[0]);
      ChangeKeepsBackup(t, at, changes[0]);
      ServicesKeepBackup(u, at, changes[1..]);
    }
  }

  lemma SavedStaysHonest(v: View, w: View, o: View, r: Receipt)
    requires Honest(v, o, r) && r.state.Installed? && SameBackup(w, v)
    ensures Honest(w, o, r)
  {
  }

  lemma HonestInstalled(v: View, o: View, end: InstallEnd, r: Option<Receipt>)
    requires InstallPromise(o, v, end, r) && end.Completed?
    ensures r.Some? && r.value.state == Installed && Honest(v, o, r.value)
    ensures SameAt(v, o, SummitKeys)
  {
  }

  lemma ReceiptPathsApart(live: LivePaths, backupRoot: Path)
    requires PairwiseApart(ProtectedPaths(live, backupRoot))
    ensures PairwiseApart(ReceiptPaths(live))
  {
    var ps, qs := ProtectedPaths(live, backupRoot), ReceiptPaths(live);
    forall i, j | 0 <= i < j < |qs|
      ensures Apart(qs[i], qs[j])
    {
      assert Apart(ps[i], ps[j]);
    }
  }

  /** What the installer checks keeps a new backup apart for the rollback. */
  lemma InstalledKeptApart(live: LivePaths, backupRoot: Path, name: Name, stage: Path)
    requires PairwiseApart(ProtectedPaths(live, backupRoot))
    requires forall p :: p in ProtectedPaths(live, backupRoot) ==> Apart(p, stage)
    ensures BackupKeptApart(live, backupRoot + [name], stage)
  {
    BackupApart(live, backupRoot, name, stage);
    var bases, ps := Bases(live, backupRoot + [name], stage), ReceiptPaths(live);
    assert Apart(bases[6], bases[7]);
    forall p | p in ps
      ensures Apart(p, backupRoot + [name]) && Apart(p, stage)
    {
      var i :| 0 <= i < |ps| && ps[i] == p;
      assert Apart(bases[i], bases[6]) && Apart(bases[i], bases[7]);
    }
  }

  lemma AcceptedHere(live: LivePaths, backupRoot: Path, hostname: string, receipt: Receipt)
    requires PairwiseApart(ProtectedPaths(live, backupRoot)) && live.config == CONFIG_PATH
    requires receipt.role in ROLES && hostname != "" && receipt.hostname == hostname
    requires receipt.paths == live && RollbackEligible(receipt.state)
    ensures Accepted(receipt, hostname) && ValidReceipt(receipt)
  {
    ReceiptPathsApart(live, backupRoot);
    hide PairwiseApart;
  }

  /** The receipt of an installation on this host is one its rollback accepts. */
  lemma InstalledSetting(u: Node, live: LivePaths, backupRoot: Path, name: Name, stage: Path,
                         hostname: string, receipt: Receipt, o: View)
    requires PairwiseApart(ProtectedPaths(live, backupRoot)) && live.config == CONFIG_PATH
    requires forall p :: p in ProtectedPaths(live, backupRoot) ==> Apart(p, stage)
    requires receipt.role in ROLES && hostname != "" && receipt.hostname == hostname
    requires receipt.paths == live && RollbackEligible(receipt.state)
    requires var at := PlacesOf(live, backupRoot + [name], stage);
             Clear(u, at) && Honest(ViewOf(u, at), o, receipt)
    ensures var backup := backupRoot + [name];
            && StoredReceipt(u, backup) == Some(receipt) && Accepted(receipt, hostname)
            && RollbackSetting(u, backup, stage, o)
            && (AcceptedAt(u, backup, hostname) <==>
                NoLinks(ViewOf(u, PlacesOf(live, backup, stage))))
  {
    AcceptedHere(live, backupRoot, hostname, receipt);
    InstalledKeptApart(live, backupRoot, name, stage);
    hide ViewOf, PlacesOf, Clear, Honest, StoredReceipt, BackupKeptApart, PairwiseApart,
         RollbackPossible, LinkFree, NoLinks, ValidReceipt;
    var at := PlacesOf(live, backupRoot + [name], stage);
    HonestIsPossible(ViewOf(u, at), o, receipt);
    PossibleReceipt(ViewOf(u, at), o, receipt);
    StoredIsSeen(u, live, backupRoot + [name], stage, receipt);
    LinkFreeIsSeen(u, receipt, backupRoot + [name], stage);
  }

  /**
   Install, run services for as long as they like, roll back. The rollback gets
   to its end exactly when the services left a Summit store with a usable lock,
   no link at a recorded path, and nothing but files where saved inputs go. Then
   the six replaced items are as they were before and nothing new is left in the
   Summit store; otherwise no original is lost. The keys never change.
   */
  method InstallRunAndRollBack(d: Disk, live: LivePaths, backupRoot: Path, name: Name,
                               stage: Path, role: string, epoch: nat, hostname: string,
                               anchor: Content, changes: seq<Change>)
    returns (r: Outcome, ghost installed: Node)
    requires role in ROLES && hostname != ""
    requires PairwiseApart(ProtectedPaths(live, backupRoot)) && live.config == CONFIG_PATH
    requires forall p :: p in ProtectedPaths(live, backupRoot) ==> Apart(p, stage)
    requires Clear(d.root, PlacesOf(live, backupRoot + [name], stage))
    requires StagedReady(ViewOf(d.root, PlacesOf(live, backupRoot + [name], stage)))
    requires TargetsAtPaths(d.root, live) && live.config != [] && live.weak != []
    requires SafePath(d.root, Parent(live.config)) && SafePath(d.root, Parent(live.weak))
    requires UsableRoot(d.root, backupRoot)
    requires Get(d.root, backupRoot + [name]).None? && d.budget.Unlimited?
    modifies d
    ensures var at := PlacesOf(live, backupRoot + [name], stage);
            var o, v := ViewOf(old(d.root), at), ViewOf(d.root, at);
            && NewStateInstalled(ViewOf(installed, at), o, live, anchor)
            && SameAt(v, o, SummitKeys)
            && (r == Done ==> Restored(v, o) && NoNewChildren(v, o))
            && (r != Done ==> RollbackCut(v, o))
    ensures InstalledAtPaths(old(d.root), installed, live, stage, anchor)
    ensures SavedAtPaths(old(d.root), installed, live, backupRoot + [name])
    ensures var left := AllChanged(installed, PlacesOf(live, backupRoot + [name], stage), changes);
            r == Done <==> UnhinderedAtPaths(left, live, backupRoot + [name])
    ensures r == Done ==> RestoredAtPaths(old(d.root), d.root, live)
  {
    hide ViewOf, Honest, Unhindered, NewStateInstalled, StagedReady, FlagsOf, PlacesOf,
         PairwiseApart, ValidTargets, Get, Clear, Separate, SameAt, InstallPromise, Restored,
         NoNewChildren, AllChanged, Accepted, StoredReceipt, RollbackSetting, RollbackCut,
         SummitSaved, RestoreView, RefusedView, NoLinks, Lockable, AcceptedAt, TargetsAtPaths,
         InstalledAtPaths, SavedAtPaths, RestoredAtPaths, UnhinderedAtPaths, HonestAtPaths,
         RolledBackAtPaths, SafePath;
    var at := PlacesOf(live, backupRoot + [name], stage);
    ghost var t, o := d.root, ViewOf(d.root, at);
    BackupApart(live, backupRoot, name, stage);
    SeparateBases(live, backupRoot + [name], stage);
    var end, made := InstallCheckpoint(d, live, backupRoot, name, stage, role, epoch, hostname,
                                       Some(anchor), false, Unlimited);
    installed := d.root;
    ghost var v1 := ViewOf(d.root, at);
    HonestInstalled(v1, o, end, made);
    InstalledHoldsAll(t, installed, live, backupRoot + [name], made.value);
    ServicesKeepBackup(d.root, at, changes);
    d.root := AllChanged(d.root, at, changes);
    d.budget := Unlimited;
    ghost var v2 := ViewOf(d.root, at);
    SavedStaysHonest(v1, v2, o, made.value);
    SameKeys(v2, v1);
    KeysTransitive(o, v1, v2);
    InstalledSetting(d.root, live, backupRoot, name, stage, hostname, made.value, o);
    HonestIsPossible(v2, o, made.value);
    UnhinderedIsEnterable(v2);
    UnhinderedIsAtPaths(d.root, live, backupRoot + [name], stage);
    r := RollbackCheckpoint(d, backupRoot + [name], stage, hostname, o);
    KeysTransitive(o, v2, ViewOf(d.root, at));
    if r == Done {
      RolledBackIsRestored(ViewOf(d.root, at), o, made.value.(state := RolledBack));
      RestoredIsAtPaths(t, d.root, live, backupRoot + [name], stage);
    }
  }

  lemma InstalledHoldsAll(t: Node, u: Node, live: LivePaths, backup: Path, r: Receipt)
    requires HonestAtPaths(t, u, live, backup, r) && r.state == Installed
    ensures SavedAtPaths(t, u, live, backup)
  {
  }

  /**
   Install, with a cut at any step: a crash, or an error followed by an automatic
   rollback that is cut again. If the receipt still says installing, the operator
   first tries to delete the backup, which is refused, and then resumes the
   rollback, cut any number of times. In the end the new state is installed, or
   the six items are as they were.
   */
  method InstallOrGetBack(d: Disk, live: LivePaths, backupRoot: Path, name: Name, stage: Path,
                          role: string, epoch: nat, hostname: string, anchor: Option<Content>,
                          crash: bool, restoreBudget: Budget, deleting: Name, cuts: seq<nat>)
    returns (end: InstallEnd, receipt: Option<Receipt>, deletion: Option<Outcome>)
    requires role in ROLES && hostname != "" && live.config == CONFIG_PATH
    requires forall p :: p in ProtectedPaths(live, backupRoot) ==> Apart(p, stage)
    requires Clear(d.root, PlacesOf(live, backupRoot + [name], stage))
    requires StagedReady(ViewOf(d.root, PlacesOf(live, backupRoot + [name], stage)))
    modifies d
    ensures receipt.Some? && receipt.value.state == Installing ==> deletion == Some(Refused)
    ensures if end.Completed? then
              anchor.Some? && InstalledAtPaths(old(d.root), d.root, live, stage, anchor.value)
            else RestoredAtPaths(old(d.root), d.root, live)
    ensures var at := PlacesOf(live, backupRoot + [name], stage);
            SameAt(ViewOf(d.root, at), ViewOf(old(d.root), at), SummitKeys)
  {
    hide ViewOf, Honest, NewStateInstalled, StagedReady, FlagsOf, PlacesOf, PairwiseApart,
         ValidTargets, Get, Clear, SameAt, InstallPromise, Restored, Accepted, StoredReceipt,
         SafeInputs, UsableRoot, LinkFree, NoLinks, Lockable, RollbackPossible,
         BackupKeptApart, InstalledAtPaths, RestoredAtPaths, HonestAtPaths, TargetsAtPaths,
         DeletionAllowed;
    var backup := backupRoot + [name];
    ghost var at := PlacesOf(live, backup, stage);
    ghost var t, o := d.root, ViewOf(d.root, at);
    deletion := None;
    end, receipt := InstallCheckpoint(d, live, backupRoot, name, stage, role, epoch, hostname,
                                      anchor, crash, restoreBudget);
    ghost var v := ViewOf(d.root, at);
    InstallEnds(o, v, end, receipt);
    if receipt.Some? && receipt.value.state.Installing? {
      InstalledSetting(d.root, live, backupRoot, name, stage, hostname, receipt.value, o);
      var r := DeleteBackup(d, backup, deleting, hostname);
      deletion := Some(r);
      SettingStays(d.root, d.root, backup, stage, o, hostname);
      EnterableNoLinks(v);
      ResumeRollback(d, backup, stage, hostname, cuts, receipt.value, o);
      KeysTransitive(o, v, ViewOf(d.root, at));
    }
    if receipt.Some? && !end.Completed? {
      RestoredIsAtPaths(t, d.root, live, backup, stage);
    }
  }

  lemma UnhinderedIsEnterable(v: View)
    ensures Unhindered(v) ==> NoLinks(v) && Lockable(v)
  {
  }

  lemma InstallEnds(o: View, v: View, end: InstallEnd, receipt: Option<Receipt>)
    requires InstallPromise(o, v, end, receipt)
    ensures SameAt(v, o, SummitKeys)
    ensures receipt.None? ==> v == o && !end.Completed?
    ensures receipt.Some? ==> Honest(v, o, receipt.value)
    ensures receipt.Some? && !receipt.value.state.Installing? && !end.Completed? ==>
              Restored(v, o)
    ensures receipt.Some? && receipt.value.state.Installing? ==> !end.Completed?
  {
  }

  lemma SameKeys(v: View, w: View)
    requires SameBackup(v, w)
    ensures SameAt(v, w, SummitKeys)
  {
  }
}
