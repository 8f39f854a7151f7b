/**
 Restoring a backup, step by step. Every method may be cut between any two
 steps; what it then leaves can still be restored.
 */
module Restore {
  import opened FileTree
  import opened Disks
  import opened Layouts
  import opened PlaceOps
  import opened CheckpointSpec

  /** What no step of the transaction touches. */
  predicate Untouched(v: View, w: View) {
    SameAt(w, v, SummitKeys) && SameAt(w, v, ReceiptFile) &&
    (HasDir(v, SummitStore) ==>
       HasDir(w, SummitStore) && w[SummitStore].mode == v[SummitStore].mode) &&
    (LOCK in Entries(v, SummitStore) ==>
       LOCK in Entries(w, SummitStore) &&
       Entries(w, SummitStore)[LOCK] == Entries(v, SummitStore)[LOCK]) &&
    (NoLock(v) ==> NoLock(w)) && (NoLinks(v) ==> NoLinks(w))
  }

  predicate NoLock(v: View) {
    LOCK !in Entries(v, SummitStore) && LOCK !in Entries(v, SavedSummit)
  }

  /** The checks before a restoration still pass after any part of it. */
  lemma EnterableStays(v: View, w: View)
    requires Untouched(v, w) && Enterable(v) && LOCK !in Entries(v, SavedSummit)
    ensures Enterable(w)
  {
  }

  /** The children of the Summit store, live and saved, are as they were. */
  predicate SameSummit(v: View, w: View) {
    SameAt(w, v, SummitStore) && SameAt(w, v, SavedSummit)
  }

  // ---------------------------------------------------------------------
  // One step keeps a backup recoverable
  // ---------------------------------------------------------------------

  lemma SummitStays(v: View, w: View, o: View)
    requires SameSummit(v, w)
    ensures SummitKept(w, o) <==> SummitKept(v, o)
    ensures SummitSaved(w, o) <==> SummitSaved(v, o)
  {
  }

  /** Losing or changing the live tree of an item that is saved, or was absent. */
  lemma LiveItemIsExpendable(v: View, w: View, o: View, p: Place)
    requires ItemsKept(v, o) && IsItem(p)
    requires SavedOf(p) in v || p !in o
    requires w == v - {p} || (p in w && !LinkAt(w, p) && w == v[p := w[p]])
    ensures ItemsKept(w, o) && SameSummit(v, w) && Untouched(v, w)
  {
  }

  lemma ItemMovedBack(v: View, o: View, p: Place)
    requires ItemsKept(v, o) && (p.RethDb? || p.RethStatic? || p.CheckpointDir?)
    requires SavedOf(p) in v
    ensures var w := (v - {SavedOf(p)})[p := v[SavedOf(p)]];
            ItemsKept(w, o) && SameSummit(v, w) && Untouched(v, w)
  {
  }

  lemma ItemMovedAway(v: View, o: View, p: Place)
    requires ItemsKept(v, o) && IsItem(p) && p in o && p in v && SavedOf(p) !in v
    ensures var w := (v - {p})[SavedOf(p) := v[p]];
            ItemsKept(w, o) && SameSummit(v, w) && Untouched(v, w)
  {
  }

  lemma ItemCopied(v: View, o: View, p: Place)
    requires ItemsKept(v, o) && IsItem(p) && p in o && p in v && SavedOf(p) !in v
    ensures var w := v[SavedOf(p) := v[p]];
            ItemsKept(w, o) && SameSummit(v, w) && Untouched(v, w)
  {
  }

  /** Moving one child of the Summit store, in either direction. */
  lemma ChildMoveKeeps(v: View, o: View, src: Place, n: Name)
    requires SummitKept(v, o) && n != LOCK && HasDir(v, SavedSummit)
    requires src == SummitStore || src == SavedSummit
    requires n in v[src].entries
    ensures var dst := if src == SummitStore then SavedSummit else SummitStore;
            var w := ChildMoved(v, src, dst, n);
            && n !in v[dst].entries && SummitKept(w, o) && Untouched(v, w)
            && (ItemsKept(v, o) ==> ItemsKept(w, o)) && (Replaceable(v) ==> Replaceable(w))
  {
    var dst := if src == SummitStore then SavedSummit else SummitStore;
    var w := ChildMoved(v, src, dst, n);
    var orig := o[SummitStore].entries;
    forall m | m != LOCK
      ensures ChildKept(m, w[SummitStore].entries, Entries(w, SavedSummit), orig)
    {
      assert ChildKept(m, v[SummitStore].entries, Entries(v, SavedSummit), orig);
    }
    assert ChildKept(n, v[SummitStore].entries, Entries(v, SavedSummit), orig);
  }

  // ---------------------------------------------------------------------
  // Restoring
  // ---------------------------------------------------------------------

  /** A moved item's restoration cut half-way: at most its live tree changed. */
  predicate MovedCut(v: View, w: View, p: Place, had: bool)
    requires IsItem(p)
  {
    w == v ||
    ((SavedOf(p) in v || !had) &&
     (w == v - {p} || (HasDir(v, p) && HasDir(w, p) && w == v[p := w[p]])))
  }

  /** The Summit store with only the lock and the children named left. */
  function StorePart(v: View, names: set<Name>): View
    requires HasDir(v, SummitStore)
  {
    var entries := v[SummitStore].entries;
    v[SummitStore := v[SummitStore].(entries :=
        map n | n in entries && (n in names || n == LOCK) :: entries[n])]
  }

  lemma StorePartStep(v: View, names: set<Name>, n: Name)
    requires HasDir(v, SummitStore) && n in names
    ensures var w := StorePart(v, names);
            HasDir(w, SummitStore) && Untouched(v, w) &&
            StorePart(v, names - {n}) ==
              if n == LOCK then w else w[SummitStore := WithoutEntry(w[SummitStore], n)]
  {
    var w := StorePart(v, names);
    if n == LOCK {
      assert StorePart(v, names - {n})[SummitStore].entries == w[SummitStore].entries;
    } else {
      assert StorePart(v, names - {n})[SummitStore] == WithoutEntry(w[SummitStore], n);
    }
  }

  lemma StorePartEnds(v: View)
    requires HasDir(v, SummitStore)
    ensures StorePart(v, v[SummitStore].entries.Keys) == v
    ensures StorePart(v, {}) ==
            v[SummitStore := v[SummitStore].(entries := OnlyLock(v[SummitStore].entries))]
  {
    var entries := v[SummitStore].entries;
    assert StorePart(v, entries.Keys)[SummitStore].entries == entries;
    assert StorePart(v, {})[SummitStore].entries == OnlyLock(entries);
  }

  lemma ChildCutUntouched(v: View, w: View, x: View, n: Name)
    requires Untouched(v, w) && DifferInChild(w, x, SummitStore, n) && n != LOCK
    ensures Untouched(v, x)
  {
    if LOCK in Entries(w, SummitStore) {
      assert (w[SummitStore].entries - {n})[LOCK] == (x[SummitStore].entries - {n})[LOCK];
    }
  }

  /** The steps it takes to clear the store. */
  ghost function ClearCost(v: View): nat
    requires HasDir(v, SummitStore)
  {
    NodesIn(v[SummitStore], v[SummitStore].entries.Keys - {LOCK})
  }

  /** The store cut while being cleared: some children are gone, one of them perhaps in part. */
  ghost predicate PartlyCleared(v: View, w: View)
    requires HasDir(v, SummitStore)
  {
    exists names, n :: ClearedTo(v, w, names, n)
  }

  predicate ClearedTo(v: View, w: View, names: set<Name>, n: Name)
    requires HasDir(v, SummitStore)
  {
    n in names && n != LOCK && DifferInChild(StorePart(v, names), w, SummitStore, n)
  }

  lemma OnlyStoreCleared(v: View, w: View, o: View)
    requires HasDir(v, SummitStore) && PartlyCleared(v, w)
    ensures w == v[SummitStore := w[SummitStore]] && w[SummitStore].Dir?
    ensures ItemsKept(v, o) ==> ItemsKept(w, o)
    ensures SummitSaved(v, o) ==> SummitSaved(w, o)
    ensures Replaceable(v) ==> Replaceable(w)
    ensures Untouched(v, w)
  {
    var names, n :| ClearedTo(v, w, names, n);
    StorePartUntouched(v, names);
    ChildCutUntouched(v, StorePart(v, names), w, n);
    assert Entries(w, SavedSummit) == Entries(v, SavedSummit);
  }

  /** Remove every child of the Summit store but the lock, in any order. */
  method ClearStore(d: Disk, at: Places) returns (o: Outcome)
    requires Separate(at) && Clear(d.root, at) && HasDir(ViewOf(d.root, at), SummitStore)
    modifies d
    ensures Clear(d.root, at)
    ensures d.budget.Unlimited? <==> old(d.budget).Unlimited?
    ensures o == Stopped ==> !old(d.budget).Unlimited?
    ensures o != Refused
    ensures o == Done ==> ViewOf(d.root, at) == StorePart(ViewOf(old(d.root), at), {})
    ensures o == Stopped ==> PartlyCleared(ViewOf(old(d.root), at), ViewOf(d.root, at))
    ensures if o == Done then Spent(old(d.budget), d.budget, ClearCost(ViewOf(old(d.root), at)))
            else Short(old(d.budget), ClearCost(ViewOf(old(d.root), at)))
  {
    hide ViewOf, StorePart, DifferInChild, Nodes, NodesIn, Spent, Short, ClearCost, ClearedTo,
         PartlyCleared;
    ghost var v := ViewOf(d.root, at);
    StorePartEnds(v);
    ViewLookup(d.root, at, SummitStore);
    var names := Get(d.root, at[SummitStore]).value.entries.Keys;
    ghost var keys := names;
    ghost var paid: nat := 0;
    SpentNothing(d.budget);
    ClearedNone(v);
    while names != {}
      invariant Clear(d.root, at)
      invariant ViewOf(d.root, at) == StorePart(v, names) && names <= keys
      invariant d.budget.Unlimited? <==> old(d.budget).Unlimited?
      invariant Spent(old(d.budget), d.budget, paid)
      invariant paid + NodesIn(v[SummitStore], names - {LOCK}) == ClearCost(v)
      decreases |names|
    {
      var n :| n in names;
      StorePartStep(v, names, n);
      ClearCharge(v, names, n);
      ghost var w, before := ViewOf(d.root, at), d.budget;
      if n != LOCK {
        StorePartEntry(v, names, n);
        o := RemoveChild(d, at, SummitStore, n);
        ghost var cost := Nodes(v[SummitStore].entries[n]);
        if o != Done {
          ClearCut(v, ViewOf(d.root, at), names, n);
          ShortOfMore(old(d.budget), before, paid, cost, ClearCost(v));
          return;
        }
        SpentTwice(old(d.budget), before, d.budget, paid, cost);
        paid := paid + cost;
      }
      names := names - {n};
    }
    ClearedAll(v);
    return Done;
  }

  /** What clearing costs from here on, whichever child comes next. */
  lemma ClearCharge(v: View, names: set<Name>, n: Name)
    requires HasDir(v, SummitStore) && n in names && names <= v[SummitStore].entries.Keys
    ensures NodesIn(v[SummitStore], names - {LOCK}) ==
            NodesIn(v[SummitStore], names - {n} - {LOCK}) +
            if n == LOCK then 0 else Nodes(v[SummitStore].entries[n])
  {
    hide Nodes, NodesIn;
    if n == LOCK {
      assert names - {LOCK} == names - {n} - {LOCK};
    } else {
      NodesInStep(v[SummitStore], names - {LOCK}, n);
      assert names - {LOCK} - {n} == names - {n} - {LOCK};
    }
  }

  lemma ClearedNone(v: View)
    requires HasDir(v, SummitStore)
    ensures ClearCost(v) == NodesIn(v[SummitStore], v[SummitStore].entries.Keys - {LOCK})
  {
  }

  lemma ClearedAll(v: View)
    requires HasDir(v, SummitStore)
    ensures NodesIn(v[SummitStore], {} - {LOCK}) == 0
  {
    assert {} - {LOCK} == {};
    NodesOf(v[SummitStore]);
  }

  lemma ClearCut(v: View, w: View, names: set<Name>, n: Name)
    requires HasDir(v, SummitStore) && n in names && n != LOCK
    requires DifferInChild(StorePart(v, names), w, SummitStore, n)
    ensures PartlyCleared(v, w)
  {
    assert ClearedTo(v, w, names, n);
  }

  lemma StorePartEntry(v: View, names: set<Name>, n: Name)
    requires HasDir(v, SummitStore) && n in names && n in v[SummitStore].entries
    ensures var w := StorePart(v, names);
            n in w[SummitStore].entries && w[SummitStore].entries[n] == v[SummitStore].entries[n]
  {
  }

  lemma SpentNothing(b: Budget)
    ensures Spent(b, b, 0)
  {
  }

  lemma SpentTwice(a: Budget, b: Budget, c: Budget, x: nat, y: nat)
    requires Spent(a, b, x) && Spent(b, c, y)
    ensures Spent(a, c, x + y)
  {
  }

  lemma ShortOfMore(a: Budget, b: Budget, x: nat, y: nat, total: nat)
    requires Spent(a, b, x) && Short(b, y) && x + y <= total
    ensures Short(a, total)
  {
  }

  lemma UntouchedSame(v: View)
    ensures Untouched(v, v)
  {
  }

  lemma StorePartUntouched(v: View, names: set<Name>)
    requires HasDir(v, SummitStore)
    ensures Untouched(v, StorePart(v, names))
  {
  }

  /** The Summit store once the saved children not named any more are back. */
  function Returning(v: View, names: set<Name>): View
    requires HasDir(v, SummitStore) && HasDir(v, SavedSummit)
  {
    var saved := v[SavedSummit].entries;
    v[SummitStore := v[SummitStore].(entries :=
        v[SummitStore].entries + (map n | n in saved && n !in names :: saved[n]))]
     [SavedSummit := v[SavedSummit].(entries := map n | n in saved && n in names :: saved[n])]
  }

  predicate Collides(v: View) {
    Entries(v, SavedSummit).Keys * Entries(v, SummitStore).Keys != {}
  }

  lemma ReturningStep(v: View, names: set<Name>, n: Name)
    requires HasDir(v, SummitStore) && HasDir(v, SavedSummit)
    requires n in names && names <= v[SavedSummit].entries.Keys
    ensures var w := Returning(v, names);
            HasDir(w, SummitStore) && HasDir(w, SavedSummit) && n in w[SavedSummit].entries &&
            (n in w[SummitStore].entries ==> Collides(v)) &&
            (n !in w[SummitStore].entries ==>
               Returning(v, names - {n}) == ChildMoved(w, SavedSummit, SummitStore, n))
  {
    var w := Returning(v, names);
    if n in w[SummitStore].entries {
      assert n in Entries(v, SavedSummit).Keys * Entries(v, SummitStore).Keys;
    } else {
      var x, y := Returning(v, names - {n}), ChildMoved(w, SavedSummit, SummitStore, n);
      assert x[SummitStore].entries == y[SummitStore].entries;
      assert x[SavedSummit].entries == y[SavedSummit].entries;
    }
  }

  lemma ChildReturnUntouched(v: View, w: View, n: Name)
    requires Untouched(v, w) && HasDir(w, SummitStore) && HasDir(w, SavedSummit)
    requires n in w[SavedSummit].entries && n !in w[SummitStore].entries
    ensures Untouched(v, ChildMoved(w, SavedSummit, SummitStore, n))
  {
  }

  lemma ReturningEnds(v: View)
    requires HasDir(v, SummitStore) && HasDir(v, SavedSummit)
    ensures Returning(v, v[SavedSummit].entries.Keys) == v
    ensures Returning(v, {}) == RestoreSummit(v, false)
  {
    var saved := v[SavedSummit].entries;
    var x := Returning(v, saved.Keys);
    assert x[SummitStore].entries == v[SummitStore].entries;
    assert x[SavedSummit].entries == saved;
    var y, z := Returning(v, {}), RestoreSummit(v, false);
    assert y[SummitStore].entries == z[SummitStore].entries;
    assert y[SavedSummit].entries == z[SavedSummit].entries;
  }

  lemma NothingSaved(v: View)
    requires HasDir(v, SummitStore) && SavedSummit !in v
    ensures RestoreSummit(v, false) == v
  {
    var entries := v[SummitStore].entries;
    assert entries + map[] == entries;
  }

  lemma KeptDoesNotCollide(v: View, o: View)
    requires SummitKept(v, o)
    ensures !Collides(v)
  {
    forall n | n in Entries(v, SavedSummit)
      ensures n !in Entries(v, SummitStore)
    {
      assert ChildKept(n, v[SummitStore].entries, Entries(v, SavedSummit),
                       o[SummitStore].entries);
    }
  }

  /** With some children returned, the others are still saved and none is in two places. */
  lemma ReturningKeeps(v: View, o: View, names: set<Name>)
    requires HasDir(v, SummitStore) && HasDir(v, SavedSummit)
    ensures var w := Returning(v, names);
            && (ItemsKept(v, o) ==> ItemsKept(w, o)) && (Replaceable(v) ==> Replaceable(w))
            && (SummitKept(v, o) ==> SummitKept(w, o))
  {
    var w := Returning(v, names);
    if SummitKept(v, o) {
      var live, saved := v[SummitStore].entries, v[SavedSummit].entries;
      forall n | n != LOCK
        ensures ChildKept(n, w[SummitStore].entries, Entries(w, SavedSummit),
                          o[SummitStore].entries)
      {
        assert ChildKept(n, live, Entries(v, SavedSummit), o[SummitStore].entries);
      }
    }
  }

  /** The saved children that are back, when a restoration stops among them. */
  ghost predicate PartlyReturned(v: View, w: View)
    requires HasDir(v, SummitStore)
  {
    w == v ||
    (HasDir(v, SavedSummit) &&
     exists names :: names <= v[SavedSummit].entries.Keys && w == Returning(v, names))
  }

  lemma PartlyReturnedKeeps(v: View, w: View, o: View)
    requires HasDir(v, SummitStore) && PartlyReturned(v, w)
    ensures ItemsKept(v, o) ==> ItemsKept(w, o)
    ensures Replaceable(v) ==> Replaceable(w)
    ensures SummitKept(v, o) ==> SummitKept(w, o)
  {
    hide ItemsKept, SummitKept, Replaceable, Returning;
    if w != v {
      var names :| names <= v[SavedSummit].entries.Keys && w == Returning(v, names);
      ReturningKeeps(v, o, names);
    }
  }

  /** Exactly one saved child is back. */
  ghost predicate OneReturned(v: View, w: View)
    requires HasDir(v, SummitStore)
  {
    HasDir(v, SavedSummit) &&
    exists n :: n in v[SavedSummit].entries &&
                w == Returning(v, v[SavedSummit].entries.Keys - {n})
  }

  /** Move every saved child back, in any order; refuse one that is in the way. */
  method ReturnChildren(d: Disk, at: Places) returns (r: Outcome)
    requires Separate(at) && Clear(d.root, at) && HasDir(ViewOf(d.root, at), SummitStore)
    requires var v := ViewOf(d.root, at); SavedSummit in v ==> v[SavedSummit].Dir?
    modifies d
    ensures Clear(d.root, at)
    ensures d.budget.Unlimited? <==> old(d.budget).Unlimited?
    ensures r == Stopped ==> !old(d.budget).Unlimited?
    ensures r == Refused ==> Collides(ViewOf(old(d.root), at))
    ensures r == Done ==> ViewOf(d.root, at) == RestoreSummit(ViewOf(old(d.root), at), false)
    ensures r == Done ==> !Collides(ViewOf(old(d.root), at))
    ensures PartlyReturned(ViewOf(old(d.root), at), ViewOf(d.root, at))
    ensures Untouched(ViewOf(old(d.root), at), ViewOf(d.root, at))
    ensures var v := ViewOf(old(d.root), at);
            old(d.budget) == Steps(1) && Entries(v, SavedSummit) != map[] && r != Refused ==>
              OneReturned(v, ViewOf(d.root, at)) && d.budget == Steps(0)
  {
    hide ViewOf, Returning, Untouched, ChildMoved, RestoreSummit, Collides;
    ghost var v := ViewOf(d.root, at);
    ViewLookup(d.root, at, SavedSummit);
    ViewLookup(d.root, at, SummitStore);
    UntouchedSame(v);
    if !Exists(d.root, at[SavedSummit]) {
      NothingSaved(v);
      NoneCollides(v);
      return Done;
    }
    ReturningEnds(v);
    var names := Get(d.root, at[SavedSummit]).value.entries.Keys;
    ghost var all := names;
    while names != {}
      invariant Clear(d.root, at)
      invariant names <= v[SavedSummit].entries.Keys
      invariant ViewOf(d.root, at) == Returning(v, names)
      invariant forall n :: n in all - names ==> n !in v[SummitStore].entries
      invariant Untouched(v, ViewOf(d.root, at))
      invariant d.budget.Unlimited? <==> old(d.budget).Unlimited?
      invariant old(d.budget) == Steps(1) ==>
                  (names == all && d.budget == Steps(1)) ||
                  (d.budget == Steps(0) && exists n :: n in all && names == all - {n})
      decreases |names|
    {
      var n :| n in names;
      ghost var w := ViewOf(d.root, at);
      ReturningStep(v, names, n);
      ChildPlace(d.root, at, SummitStore, n);
      if Get(d.root, at[SummitStore] + [n]).Some? {
        return Refused;
      }
      r := MoveChild(d, at, SavedSummit, SummitStore, n);
      if r != Done {
        return;
      }
      ChildReturnUntouched(v, w, n);
      ReturnedWasFree(v, names, n);
      names := names - {n};
    }
    NoneCollides(v);
    return Done;
  }

  lemma ReturnedWasFree(v: View, names: set<Name>, n: Name)
    requires HasDir(v, SummitStore) && HasDir(v, SavedSummit)
    requires n in names && names <= v[SavedSummit].entries.Keys
    requires n !in Returning(v, names)[SummitStore].entries
    ensures n !in v[SummitStore].entries
  {
  }

  lemma NoneCollides(v: View)
    ensures (forall n :: n in Entries(v, SavedSummit) ==> n !in Entries(v, SummitStore)) ==>
              !Collides(v)
  {
  }

  /** Nothing in the backup makes a read fail. */
  predicate Readable(v: View) {
    && HasDir(v, SummitStore)
    && (SavedSummit in v ==> v[SavedSummit].Dir?)
    && (SavedDb in v ==> v[SavedDb].Dir?)
    && (SavedStatic in v ==> v[SavedStatic].Dir?)
    && (SavedCheckpoint in v ==> v[SavedCheckpoint].Dir?)
    && (SavedConfig in v ==> v[SavedConfig].File?)
    && (SavedAnchor in v ==> v[SavedAnchor].File?)
  }

  lemma KeptIsReadable(v: View, o: View)
    requires ItemsKept(v, o) && HasDir(v, SummitStore)
    requires SavedSummit in v ==> v[SavedSummit].Dir?
    ensures Readable(v)
  {
  }

  lemma ReadableStays(v: View, p: Place, had: bool)
    requires Readable(v) && IsItem(p)
    ensures p.RethDb? || p.RethStatic? || p.CheckpointDir? ==>
              Readable(RestoreMoved(v, p, had)) && Untouched(v, RestoreMoved(v, p, had)) &&
              SameSummit(v, RestoreMoved(v, p, had))
    ensures p.StartConfig? || p.Anchor? ==>
              Readable(RestoreCopied(v, p, had)) && Untouched(v, RestoreCopied(v, p, had)) &&
              SameSummit(v, RestoreCopied(v, p, had))
  {
  }

  lemma ReadableStore(v: View, removeNew: bool)
    requires Readable(v)
    ensures Readable(StorePart(v, {})) && Readable(RestoreSummit(v, removeNew))
    ensures Entries(StorePart(v, {}), SavedSummit) == Entries(v, SavedSummit)
    ensures RestoreSummit(v, true) == RestoreSummit(StorePart(v, {}), false)
  {
    StorePartEnds(v);
  }

  lemma MovedCutUntouched(v: View, w: View, p: Place, had: bool)
    requires IsItem(p) && MovedCut(v, w, p, had)
    ensures Untouched(v, w) && SameSummit(v, w)
  {
  }

  lemma MovedCutKeeps(v: View, w: View, o: View, p: Place, had: bool)
    requires ItemsKept(v, o) && IsItem(p) && had == Had(FlagsOf(o), p)
    requires MovedCut(v, w, p, had)
    ensures ItemsKept(w, o)
  {
    if w != v {
      LiveItemIsExpendable(v, w, o, p);
    }
  }

  lemma RestoredItemKeeps(v: View, o: View, p: Place)
    requires ItemsKept(v, o) && IsItem(p)
    ensures p.RethDb? || p.RethStatic? || p.CheckpointDir? ==>
              ItemsKept(RestoreMoved(v, p, Had(FlagsOf(o), p)), o)
    ensures p.StartConfig? || p.Anchor? ==>
              ItemsKept(RestoreCopied(v, p, Had(FlagsOf(o), p)), o)
  {
    var s := SavedOf(p);
    if p.RethDb? || p.RethStatic? || p.CheckpointDir? {
      if s in v {
        ItemMovedBack(v, o, p);
      } else if p !in o {
        LiveItemIsExpendable(v, v - {p}, o, p);
      }
    } else if s in v {
      LiveItemIsExpendable(v, v[p := v[s]], o, p);
    } else if p !in o {
      LiveItemIsExpendable(v, v - {p}, o, p);
    }
  }

  lemma UntouchedTransitive(u: View, v: View, w: View)
    requires Untouched(u, v) && Untouched(v, w)
    ensures Untouched(u, w)
  {
  }

  /**
   What restoring some of the items keeps, wherever it is cut: the children, the
   keys, the receipt and the lock; and no item is lost.
   */
  ghost predicate ItemsStep(v: View, w: View, prev: Previous, o: View) {
    && Untouched(v, w) && SameSummit(v, w)
    && (Replaceable(v) ==> Replaceable(w))
    && (prev == FlagsOf(o) && ItemsKept(v, o) ==> ItemsKept(w, o))
  }

  lemma ItemsStepTransitive(u: View, v: View, w: View, prev: Previous, o: View)
    requires ItemsStep(u, v, prev, o) && ItemsStep(v, w, prev, o)
    ensures ItemsStep(u, w, prev, o)
  {
    UntouchedTransitive(u, v, w);
    hide Untouched, Replaceable, ItemsKept, FlagsOf;
  }

  /** The steps it takes to restore a moved item whose live parent exists. */
  ghost function ItemCost(v: View, p: Place, had: bool): nat
    requires IsItem(p)
  {
    if SavedOf(p) in v then LiveNodes(v, p) + 1 else if had then 0 else LiveNodes(v, p)
  }

  lemma NothingKeptParents(t: Node, at: Places)
    ensures ParentsKept(t, t, at)
  {
  }

  /** `remove_path` and `move_path`: the saved tree takes the place of the live one. */
  method MoveItemBack(d: Disk, at: Places, p: Place) returns (r: Outcome)
    requires Separate(at) && Clear(d.root, at)
    requires p.RethDb? || p.RethStatic? || p.CheckpointDir?
    requires SavedOf(p) in ViewOf(d.root, at)
    modifies d
    ensures Clear(d.root, at) && ParentsKept(old(d.root), d.root, at)
    ensures d.budget.Unlimited? <==> old(d.budget).Unlimited?
    ensures r == Stopped ==> !old(d.budget).Unlimited?
    ensures r != Refused
    ensures var v, w := ViewOf(old(d.root), at), ViewOf(d.root, at);
            if r == Done then w == (v - {SavedOf(p)})[p := v[SavedOf(p)]]
            else w == v || w == v - {p} ||
                 (HasDir(v, p) && HasDir(w, p) && w == v[p := w[p]])
    ensures ParentThere(old(d.root), at, p) ==>
              var cost := LiveNodes(ViewOf(old(d.root), at), p) + 1;
              if r == Done then Spent(old(d.budget), d.budget, cost)
              else Short(old(d.budget), cost)
    ensures old(d.budget) == Steps(0) ==> d.root == old(d.root) && d.budget == old(d.budget)
  {
    hide ViewOf, Nodes, ParentThere, SafeAt, Clear, Separate;
    ghost var t := d.root;
    r := RemovePlace(d, at, p);
    if r == Done {
      ghost var u := d.root;
      r := MovePlace(d, at, SavedOf(p), p);
      ParentsKeptTransitive(t, u, d.root, at);
    }
  }

  method RestoreMovedItem(d: Disk, at: Places, p: Place, prev: Previous, ghost o: View)
    returns (r: Outcome)
    requires Separate(at) && Clear(d.root, at) && Readable(ViewOf(d.root, at))
    requires p.RethDb? || p.RethStatic? || p.CheckpointDir?
    modifies d
    ensures Clear(d.root, at) && ParentsKept(old(d.root), d.root, at)
    ensures d.budget.Unlimited? <==> old(d.budget).Unlimited?
    ensures r == Stopped ==> !old(d.budget).Unlimited?
    ensures r != Refused
    ensures r == Done ==>
              ViewOf(d.root, at) == RestoreMoved(ViewOf(old(d.root), at), p, Had(prev, p))
    ensures r == Done ==> Readable(ViewOf(d.root, at))
    ensures ItemsStep(ViewOf(old(d.root), at), ViewOf(d.root, at), prev, o)
    ensures ParentThere(old(d.root), at, p) ==>
              var cost := ItemCost(ViewOf(old(d.root), at), p, Had(prev, p));
              if r == Done then Spent(old(d.budget), d.budget, cost)
              else Short(old(d.budget), cost)
    ensures old(d.budget) == Steps(0) ==> d.root == old(d.root) && d.budget == old(d.budget)
  {
    hide ViewOf, ItemsStep, FlagsOf, Had, Nodes, ParentsKept, Clear, Separate;
    ghost var v := ViewOf(d.root, at);
    var s := SavedOf(p);
    ViewLookup(d.root, at, s);
    NothingKeptParents(d.root, at);
    if Exists(d.root, at[s]) {
      r := MoveItemBack(d, at, p);
    } else if !Had(prev, p) {
      r := RemovePlace(d, at, p);
    } else {
      r := Done;
    }
    MovedItemStep(v, ViewOf(d.root, at), p, prev, o, r == Done);
  }

  /** A moved item restored, or cut half-way, is a step that keeps the items. */
  lemma MovedItemStep(v: View, w: View, p: Place, prev: Previous, o: View, done: bool)
    requires Readable(v) && (p.RethDb? || p.RethStatic? || p.CheckpointDir?)
    requires if done then w == RestoreMoved(v, p, Had(prev, p))
             else MovedCut(v, w, p, Had(prev, p))
    ensures ItemsStep(v, w, prev, o) && (done ==> Readable(w))
  {
    hide ItemsKept, Untouched, FlagsOf, Readable;
    ReadableStays(v, p, Had(prev, p));
    if !done {
      MovedCutUntouched(v, w, p, Had(prev, p));
    }
    if prev == FlagsOf(o) && ItemsKept(v, o) {
      if done {
        RestoredItemKeeps(v, o, p);
      } else {
        MovedCutKeeps(v, w, o, p, Had(prev, p));
      }
    }
  }

  method RestoreCopiedItem(d: Disk, at: Places, p: Place, prev: Previous, ghost o: View)
    returns (r: Outcome)
    requires Separate(at) && Clear(d.root, at) && Readable(ViewOf(d.root, at))
    requires p.StartConfig? || p.Anchor?
    modifies d
    ensures Clear(d.root, at)
    ensures d.budget.Unlimited? <==> old(d.budget).Unlimited?
    ensures r == Stopped ==> !old(d.budget).Unlimited?
    ensures r == Refused ==> Blocked(ViewOf(old(d.root), at), p)
    ensures r == Refused ==> ViewOf(d.root, at) == ViewOf(old(d.root), at)
    ensures r == Done ==> !Blocked(ViewOf(old(d.root), at), p)
    ensures r == Done ==>
              ViewOf(d.root, at) == RestoreCopied(ViewOf(old(d.root), at), p, Had(prev, p))
    ensures r == Done ==> Readable(ViewOf(d.root, at))
    ensures ItemsStep(ViewOf(old(d.root), at), ViewOf(d.root, at), prev, o)
    ensures old(d.budget) == Steps(0) ==> d.root == old(d.root) && d.budget == old(d.budget)
  {
    hide ViewOf, ItemsKept, Untouched, FlagsOf, Had, Replaceable, Nodes;
    ghost var v := ViewOf(d.root, at);
    var s := SavedOf(p);
    ViewLookup(d.root, at, s);
    if Exists(d.root, at[s]) {
      ClearIsSafe(d.root, at, p);
      var copy := Get(d.root, at[s]).value;
      r := WritePlace(d, at, p, copy.content, copy.mode);
    } else if !Had(prev, p) {
      r := RemovePlace(d, at, p);
    } else {
      r := Done;
    }
    CopiedItemStep(v, ViewOf(d.root, at), p, prev, o, r == Done);
  }

  lemma CopiedItemStep(v: View, w: View, p: Place, prev: Previous, o: View, done: bool)
    requires Readable(v) && (p.StartConfig? || p.Anchor?)
    requires if done then w == RestoreCopied(v, p, Had(prev, p))
             else MovedCut(v, w, p, Had(prev, p))
    ensures ItemsStep(v, w, prev, o) && (done ==> Readable(w))
  {
    hide ItemsKept, Untouched, FlagsOf;
    ReadableStays(v, p, Had(prev, p));
    if !done {
      MovedCutUntouched(v, w, p, Had(prev, p));
    }
    if prev == FlagsOf(o) && ItemsKept(v, o) {
      if done {
        RestoredItemKeeps(v, o, p);
      } else {
        MovedCutKeeps(v, w, o, p, Had(prev, p));
      }
    }
  }

  /** The steps it takes to restore both Reth items. */
  ghost function RethCost(v: View, prev: Previous): nat {
    ItemCost(v, RethDb, prev.rethDb) + ItemCost(v, RethStatic, prev.rethStatic)
  }

  lemma StaticCostStays(v: View, prev: Previous)
    ensures ItemCost(RestoreMoved(v, RethDb, prev.rethDb), RethStatic, prev.rethStatic) ==
            ItemCost(v, RethStatic, prev.rethStatic)
  {
    hide Nodes;
  }

  method RestoreRethItems(d: Disk, at: Places, prev: Previous, ghost o: View)
    returns (r: Outcome)
    requires Separate(at) && Clear(d.root, at) && Readable(ViewOf(d.root, at))
    modifies d
    ensures Clear(d.root, at)
    ensures d.budget.Unlimited? <==> old(d.budget).Unlimited?
    ensures r == Stopped ==> !old(d.budget).Unlimited?
    ensures r != Refused
    ensures r == Done ==> ViewOf(d.root, at) == RestoreReth(ViewOf(old(d.root), at), prev)
    ensures r == Done ==> Readable(ViewOf(d.root, at))
    ensures ItemsStep(ViewOf(old(d.root), at), ViewOf(d.root, at), prev, o)
    ensures ParentThere(old(d.root), at, RethDb) && ParentThere(old(d.root), at, RethStatic) ==>
              var cost := RethCost(ViewOf(old(d.root), at), prev);
              if r == Done then Spent(old(d.budget), d.budget, cost)
              else Short(old(d.budget), cost)
  {
    hide ViewOf, ItemsStep, Readable, RestoreMoved, ItemCost;
    ghost var v0, b0 := ViewOf(d.root, at), d.budget;
    StaticCostStays(v0, prev);
    r := RestoreMovedItem(d, at, RethDb, prev, o);
    if r != Done {
      return;
    }
    ghost var v1 := ViewOf(d.root, at);
    r := RestoreMovedItem(d, at, RethStatic, prev, o);
    ItemsStepTransitive(v0, v1, ViewOf(d.root, at), prev, o);
  }

  /** A saved child whose place in the store is taken when it is to be moved back. */
  predicate StoreBlocked(v: View, removeNew: bool)
    requires HasDir(v, SummitStore)
  {
    Collides(if removeNew then StorePart(v, {}) else v)
  }

  /** What the Summit part of a restoration keeps, wherever it is cut. */
  ghost predicate SummitStep(v: View, w: View, removeNew: bool, o: View) {
    && Untouched(v, w) && (ItemsKept(v, o) ==> ItemsKept(w, o))
    && (Replaceable(v) ==> Replaceable(w))
    && (!removeNew && SummitKept(v, o) ==> SummitKept(w, o))
    && (removeNew && HasDir(o, SummitStore) && SummitSaved(v, o) ==>
        SummitSaved(w, o) || SummitKept(w, o))
  }

  /** A cleared store whose children are all saved keeps each in one place. */
  lemma ClearedIsKept(v: View, o: View)
    requires HasDir(v, SummitStore) && HasDir(o, SummitStore) && SummitSaved(v, o)
    ensures SummitKept(StorePart(v, {}), o)
  {
    var w := StorePart(v, {});
    var orig := o[SummitStore].entries;
    assert Entries(w, SavedSummit) == Unlocked(orig);
    forall n | n != LOCK
      ensures ChildKept(n, w[SummitStore].entries, Entries(w, SavedSummit), orig)
    {
      assert n in orig ==> Unlocked(orig)[n] == orig[n];
    }
  }

  lemma ClearStep(v: View, w: View, o: View)
    requires HasDir(v, SummitStore) && PartlyCleared(v, w)
    ensures SummitStep(v, w, true, o)
  {
    OnlyStoreCleared(v, w, o);
  }

  lemma ReturnStep(v: View, u: View, w: View, removeNew: bool, o: View)
    requires HasDir(v, SummitStore) && u == (if removeNew then StorePart(v, {}) else v)
    requires PartlyReturned(u, w) && Untouched(u, w)
    ensures SummitStep(v, w, removeNew, o)
  {
    hide Untouched, PartlyReturned, SummitKept, SummitSaved;
    UntouchedSame(v);
    StorePartUntouched(v, {});
    UntouchedTransitive(v, u, w);
    PartlyReturnedKeeps(u, w, o);
    if removeNew && HasDir(o, SummitStore) && SummitSaved(v, o) {
      ClearedIsKept(v, o);
    }
  }

  /** One child is back, the others are still saved and no other is live. */
  ghost predicate FirstChildBack(v: View, w: View)
    requires HasDir(v, SummitStore) && HasDir(v, SavedSummit)
  {
    exists n :: n in v[SavedSummit].entries && w == CutAfterChild(v, n)
  }

  lemma OneReturnedIsCut(v: View, w: View)
    requires HasDir(v, SummitStore) && OneReturned(StorePart(v, {}), w)
    ensures HasDir(v, SavedSummit) && FirstChildBack(v, w)
  {
    var u := StorePart(v, {});
    StorePartEnds(v);
    hide StorePart, Returning;
    var n :| n in v[SavedSummit].entries &&
             w == Returning(u, v[SavedSummit].entries.Keys - {n});
    AllButOne(v, n);
  }

  lemma AllButOne(v: View, n: Name)
    requires HasDir(v, SummitStore) && HasDir(v, SavedSummit) && n in v[SavedSummit].entries
    ensures var u := v[SummitStore := v[SummitStore].(entries := OnlyLock(v[SummitStore].entries))];
            Returning(u, v[SavedSummit].entries.Keys - {n}) == CutAfterChild(v, n)
  {
    var saved := v[SavedSummit].entries;
    assert (map m | m in saved && m !in saved.Keys - {n} :: saved[m]) == map[n := saved[n]];
    assert (map m | m in saved && m in saved.Keys - {n} :: saved[m]) == saved - {n};
    assert OnlyLock(v[SummitStore].entries) + map[n := saved[n]] ==
           OnlyLock(v[SummitStore].entries)[n := saved[n]];
  }

  method RestoreSummitStore(d: Disk, at: Places, removeNew: bool, ghost o: View)
    returns (r: Outcome)
    requires Separate(at) && Clear(d.root, at) && Readable(ViewOf(d.root, at))
    modifies d
    ensures Clear(d.root, at)
    ensures d.budget.Unlimited? <==> old(d.budget).Unlimited?
    ensures r == Stopped ==> !old(d.budget).Unlimited?
    ensures r == Refused ==> StoreBlocked(ViewOf(old(d.root), at), removeNew)
    ensures r == Done ==> !StoreBlocked(ViewOf(old(d.root), at), removeNew)
    ensures r == Done ==> ViewOf(d.root, at) == RestoreSummit(ViewOf(old(d.root), at), removeNew)
    ensures r == Done ==> Readable(ViewOf(d.root, at))
    ensures SummitStep(ViewOf(old(d.root), at), ViewOf(d.root, at), removeNew, o)
    ensures var v := ViewOf(old(d.root), at);
            removeNew && old(d.budget) == Steps(ClearCost(v) + 1) && r != Refused &&
            Entries(v, SavedSummit) != map[] ==>
              FirstChildBack(v, ViewOf(d.root, at)) && d.budget == Steps(0)
  {
    hide ViewOf, Untouched, Readable, RestoreSummit, StorePart, Collides, SummitStep,
         PartlyReturned, PartlyCleared, ClearCost, OneReturned, FirstChildBack;
    ghost var v := ViewOf(d.root, at);
    ReadableHasStore(v);
    ReadableStore(v, removeNew);
    if removeNew {
      r := ClearStore(d, at);
      if r != Done {
        ClearStep(v, ViewOf(d.root, at), o);
        return;
      }
    }
    ghost var u := ViewOf(d.root, at);
    ReadableHasStore(u);
    r := ReturnChildren(d, at);
    ReturnStep(v, u, ViewOf(d.root, at), removeNew, o);
    if removeNew && OneReturned(u, ViewOf(d.root, at)) {
      OneReturnedIsCut(v, ViewOf(d.root, at));
    }
  }

  /** The state in which a restoration is refused at an input file. */
  function InputsRefused(v: View, prev: Previous): View {
    var u := RestoreMoved(v, CheckpointDir, prev.checkpoint);
    if Blocked(u, StartConfig) then u else RestoreCopied(u, StartConfig, prev.config)
  }

  lemma StillBlocked(v: View, prev: Previous)
    ensures var u := RestoreMoved(v, CheckpointDir, prev.checkpoint);
            && (Blocked(u, StartConfig) <==> Blocked(v, StartConfig))
            && (Blocked(u, Anchor) <==> Blocked(v, Anchor))
            && (Blocked(RestoreCopied(u, StartConfig, prev.config), Anchor) <==>
                Blocked(v, Anchor))
  {
  }

  method RestoreInputItems(d: Disk, at: Places, prev: Previous, ghost o: View)
    returns (r: Outcome)
    requires Separate(at) && Clear(d.root, at) && Readable(ViewOf(d.root, at))
    modifies d
    ensures Clear(d.root, at)
    ensures d.budget.Unlimited? <==> old(d.budget).Unlimited?
    ensures r == Stopped ==> !old(d.budget).Unlimited?
    ensures r == Refused ==> InputsBlocked(ViewOf(old(d.root), at))
    ensures r == Refused ==>
              ViewOf(d.root, at) == InputsRefused(ViewOf(old(d.root), at), prev)
    ensures r == Done ==> !InputsBlocked(ViewOf(old(d.root), at))
    ensures r == Done ==> ViewOf(d.root, at) == RestoreInputs(ViewOf(old(d.root), at), prev)
    ensures r == Done ==> Readable(ViewOf(d.root, at))
    ensures ItemsStep(ViewOf(old(d.root), at), ViewOf(d.root, at), prev, o)
    ensures old(d.budget) == Steps(0) ==> d.root == old(d.root) && d.budget == old(d.budget)
  {
    hide ViewOf, ItemsStep, Readable, RestoreMoved, RestoreCopied, Blocked;
    ghost var v0 := ViewOf(d.root, at);
    StillBlocked(v0, prev);
    r := RestoreMovedItem(d, at, CheckpointDir, prev, o);
    if r != Done {
      return;
    }
    ghost var v1 := ViewOf(d.root, at);
    r := RestoreCopiedItem(d, at, StartConfig, prev, o);
    ghost var v2 := ViewOf(d.root, at);
    ItemsStepTransitive(v0, v1, v2, prev, o);
    if r != Done {
      return;
    }
    r := RestoreCopiedItem(d, at, Anchor, prev, o);
    ItemsStepTransitive(v0, v2, ViewOf(d.root, at), prev, o);
  }

  /** What stops a restoration that is not cut. */
  predicate Hindered(v: View, removeNew: bool)
    requires HasDir(v, SummitStore)
  {
    StoreBlocked(v, removeNew) || InputsBlocked(v)
  }

  /** The view in which a restoration is refused at an input file. */
  function RefusedView(v: View, prev: Previous, removeNew: bool): View
    requires HasDir(v, SummitStore)
  {
    InputsRefused(RestoreSummit(RestoreReth(v, prev), removeNew), prev)
  }

  /**
   `restore_backup`. Complete, it yields `RestoreView` of the state it started
   in. Cut anywhere while restoring an interrupted installation, it leaves a
   state that can still be restored; cut anywhere while rolling back an
   installed checkpoint, it has lost no original. Uncut, it fails exactly when
   a saved child or input file finds its place taken. With the steps for Reth,
   for clearing the store and one more, it stops with one child moved back.
   */
  method RestoreBackup(d: Disk, at: Places, prev: Previous, removeNew: bool, ghost o: View)
    returns (r: Outcome)
    requires Separate(at) && Clear(d.root, at) && Readable(ViewOf(d.root, at))
    modifies d
    ensures Clear(d.root, at)
    ensures d.budget.Unlimited? <==> old(d.budget).Unlimited?
    ensures r == Stopped ==> !old(d.budget).Unlimited?
    ensures r == Refused ==> Hindered(ViewOf(old(d.root), at), removeNew)
    ensures r == Done ==> !Hindered(ViewOf(old(d.root), at), removeNew)
    ensures r == Refused && !StoreBlocked(ViewOf(old(d.root), at), removeNew) ==>
              ViewOf(d.root, at) == RefusedView(ViewOf(old(d.root), at), prev, removeNew)
    ensures r == Done ==>
              ViewOf(d.root, at) == RestoreView(ViewOf(old(d.root), at), prev, removeNew)
    ensures Untouched(ViewOf(old(d.root), at), ViewOf(d.root, at))
    ensures !removeNew && prev == FlagsOf(o) && Recoverable(ViewOf(old(d.root), at), o) ==>
              Recoverable(ViewOf(d.root, at), o)
    ensures var v := ViewOf(old(d.root), at);
            removeNew && prev == FlagsOf(o) && ItemsKept(v, o) && SummitSaved(v, o) ==>
              RollbackCut(ViewOf(d.root, at), o)
    ensures var v := ViewOf(old(d.root), at);
            removeNew && old(d.budget) == Steps(RethCost(v, prev) + ClearCost(v) + 1) &&
            ParentThere(old(d.root), at, RethDb) && ParentThere(old(d.root), at, RethStatic) &&
            Entries(v, SavedSummit) != map[] && !StoreBlocked(v, true) ==>
              r != Done || d.budget == Steps(0)
    ensures var v := ViewOf(old(d.root), at);
            removeNew && old(d.budget) == Steps(RethCost(v, prev) + ClearCost(v) + 1) &&
            ParentThere(old(d.root), at, RethDb) && ParentThere(old(d.root), at, RethStatic) &&
            Entries(v, SavedSummit) != map[] && !StoreBlocked(v, true) ==>
              CutAtFirstChild(RestoreReth(v, prev), ViewOf(d.root, at))
  {
    hide ViewOf, ItemsKept, ItemsStep, SummitStep, FlagsOf, Readable, RestoreSummit,
         RestoreReth, RestoreInputs, InputsRefused, InputsBlocked, StoreBlocked, RethCost,
         ClearCost, Untouched, SummitKept, SummitSaved, Replaceable, FirstChildBack;
    ghost var v0 := ViewOf(d.root, at);
    ReadableHasStore(v0);
    AfterReth(v0, prev, removeNew);
    r := RestoreRethItems(d, at, prev, o);
    ghost var v1 := ViewOf(d.root, at);
    ItemsStepKeeps(v0, v1, prev, o);
    if r != Done {
      return;
    }
    ReadableHasStore(v1);
    r := RestoreSummitStore(d, at, removeNew, o);
    ghost var v2 := ViewOf(d.root, at);
    SummitStepKeeps(v0, v1, v2, prev, removeNew, o);
    if r != Done {
      return;
    }
    AfterSummit(v1, removeNew);
    r := RestoreInputItems(d, at, prev, o);
    ItemsStepKeeps(v2, ViewOf(d.root, at), prev, o);
    UntouchedTransitive(v0, v2, ViewOf(d.root, at));
  }

  ghost predicate CutAtFirstChild(v: View, w: View) {
    HasDir(v, SummitStore) && HasDir(v, SavedSummit) && FirstChildBack(v, w)
  }

  /** What the store and the input files have in their way is the same after Reth. */
  lemma AfterReth(v: View, prev: Previous, removeNew: bool)
    requires HasDir(v, SummitStore)
    ensures var w := RestoreReth(v, prev);
            && HasDir(w, SummitStore) && Entries(w, SavedSummit) == Entries(v, SavedSummit)
            && (StoreBlocked(w, removeNew) <==> StoreBlocked(v, removeNew))
            && (InputsBlocked(w) <==> InputsBlocked(v)) && ClearCost(w) == ClearCost(v)
  {
    var w := RestoreReth(v, prev);
    RestoreRethAt(v, prev);
    hide RestoreReth, NodesIn;
    assert SameAt(w, v, SavedSummit) && SameAt(w, v, SummitStore);
    assert SameAt(w, v, StartConfig) && SameAt(w, v, SavedConfig);
    assert SameAt(w, v, Anchor) && SameAt(w, v, SavedAnchor);
  }

  lemma AfterSummit(v: View, removeNew: bool)
    requires HasDir(v, SummitStore)
    ensures InputsBlocked(RestoreSummit(v, removeNew)) <==> InputsBlocked(v)
  {
  }

  lemma ItemsStepKeeps(v: View, w: View, prev: Previous, o: View)
    requires ItemsStep(v, w, prev, o)
    ensures Untouched(v, w)
    ensures prev == FlagsOf(o) && Recoverable(v, o) ==> Recoverable(w, o)
    ensures prev == FlagsOf(o) && RollbackCut(v, o) ==> RollbackCut(w, o)
    ensures prev == FlagsOf(o) && ItemsKept(v, o) ==> ItemsKept(w, o)
    ensures SummitSaved(w, o) <==> SummitSaved(v, o)
  {
    SummitStays(v, w, o);
    hide Untouched, ItemsKept, SummitKept, SummitSaved, FlagsOf, Replaceable;
  }

  lemma SummitStepKeeps(u: View, v: View, w: View, prev: Previous, removeNew: bool, o: View)
    requires Untouched(u, v) && SummitStep(v, w, removeNew, o)
    ensures Untouched(u, w)
    ensures !removeNew && Recoverable(v, o) ==> Recoverable(w, o)
    ensures removeNew && ItemsKept(v, o) && SummitSaved(v, o) ==> RollbackCut(w, o)
  {
    UntouchedTransitive(u, v, w);
    if ItemsKept(v, o) {
      KeptHasStore(v, o);
    }
    hide Untouched, ItemsKept, SummitKept, SummitSaved, Replaceable;
  }

  lemma KeptHasStore(v: View, o: View)
    requires ItemsKept(v, o)
    ensures HasDir(o, SummitStore)
  {
  }

  lemma ReadableHasStore(v: View)
    requires Readable(v)
    ensures HasDir(v, SummitStore) && (SavedSummit in v ==> v[SavedSummit].Dir?)
  {
  }
}
