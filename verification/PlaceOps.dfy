/**
 The disk primitives applied to the places of the transaction, with contracts
 about the view: what one place gains or loses, and that nothing else changes.
 */
module PlaceOps {
  import opened FileTree
  import opened Disks
  import opened Layouts

  /** Nothing has to be known of other places before something is put here. */
  predicate NoWitness(p: Place) {
    !p.SavedConfig? && !p.SavedAnchor? && !p.ReceiptFile?
  }

  lemma MovedPlace(t: Node, at: Places, src: Place, dst: Place)
    requires Separate(at) && Clear(t, at) && src != dst
    requires at[src] != [] && Get(t, at[src]).Some? && Get(t, at[dst]).None?
    requires CanPut(Del(t, at[src]), at[dst]) && NoWitness(dst)
    ensures var v := ViewOf(t, at);
            var u := Put(Del(t, at[src]), at[dst], Get(t, at[src]).value);
            Clear(u, at) && ParentsKept(t, u, at) && src in v && dst !in v &&
            ViewOf(u, at) == (v - {src})[dst := v[src]]
  {
    hide ViewOf;
    ViewLookup(t, at, src);
    ViewLookup(t, at, dst);
    ViewDel(t, at, src);
    ViewPut(Del(t, at[src]), at, dst, Get(t, at[src]).value);
  }

  /** Parents of a place, partly or all created, leave the view alone. */
  lemma ParentsMade(t: Node, at: Places, a: Place, k: nat)
    requires Separate(at) && Clear(t, at)
    ensures at[a] != [] && DirPath(t, Parent(at[a]))
    ensures k <= |Parent(at[a])| && DirPath(t, Parent(at[a])[..k]) ==>
              var u := MakeDirs(t, Parent(at[a])[..k], DIR_MODE);
              Clear(u, at) && ParentsKept(t, u, at) && ViewOf(u, at) == ViewOf(t, at)
  {
    hide ViewOf;
    ClearParent(t, at, a);
    if k <= |Parent(at[a])| && DirPath(t, Parent(at[a])[..k]) {
      assert Parent(at[a])[..k] == at[a][..k];
      ViewMakeDirs(t, at, a, k, DIR_MODE);
    }
  }

  lemma MovedAfterParents(t: Node, at: Places, src: Place, dst: Place)
    requires Separate(at) && Clear(t, at) && src != dst && NoWitness(dst)
    requires at[src] != [] && at[dst] != [] && DirPath(t, Parent(at[dst]))
    requires var u := MakeDirs(t, Parent(at[dst]), DIR_MODE);
             Get(u, at[src]).Some? && Get(u, at[dst]).None? && CanPut(Del(u, at[src]), at[dst])
    ensures var v, u := ViewOf(t, at), MakeDirs(t, Parent(at[dst]), DIR_MODE);
            var w := Put(Del(u, at[src]), at[dst], Get(u, at[src]).value);
            Clear(w, at) && ParentsKept(t, w, at) && src in v && dst !in v &&
            ViewOf(w, at) == (v - {src})[dst := v[src]]
  {
    hide ViewOf, Put, Del, MakeDirs, Get, DirPath, CanPut, Apart;
    assert Parent(at[dst])[..|Parent(at[dst])|] == Parent(at[dst]);
    ParentsMade(t, at, dst, |Parent(at[dst])|);
    MovedPlace(MakeDirs(t, Parent(at[dst]), DIR_MODE), at, src, dst);
  }

  lemma MoveRefused(t: Node, at: Places, src: Place, dst: Place)
    requires Separate(at) && Clear(t, at) && src != dst
    requires at[src] != [] && at[dst] != [] && DirPath(t, Parent(at[dst]))
    requires var u := MakeDirs(t, Parent(at[dst]), DIR_MODE);
             Get(u, at[dst]).Some? || Get(u, at[src]).None? || at[src] <= at[dst]
    ensures dst in ViewOf(t, at) || src !in ViewOf(t, at)
  {
    hide ViewOf, Put, Del, MakeDirs, Get, DirPath, CanPut, Apart;
    var u := MakeDirs(t, Parent(at[dst]), DIR_MODE);
    assert Parent(at[dst])[..|Parent(at[dst])|] == Parent(at[dst]);
    ParentsMade(t, at, dst, |Parent(at[dst])|);
    assert Disjoint(at, src, dst);
    ApartIffIncomparable(at[src], at[dst]);
    ViewLookup(u, at, src);
    ViewLookup(u, at, dst);
  }

  method MovePlace(d: Disk, at: Places, src: Place, dst: Place) returns (o: Outcome)
    requires Separate(at) && Clear(d.root, at) && src != dst && NoWitness(dst)
    modifies d
    ensures Clear(d.root, at)
    ensures ParentsKept(old(d.root), d.root, at)
    ensures d.budget.Unlimited? <==> old(d.budget).Unlimited?
    ensures o == Stopped ==> !old(d.budget).Unlimited?
    ensures o == Done ==>
              var v := ViewOf(old(d.root), at);
              src in v && dst !in v && ViewOf(d.root, at) == (v - {src})[dst := v[src]]
    ensures o != Done ==> ViewOf(d.root, at) == ViewOf(old(d.root), at)
    ensures o == Refused ==>
              dst in ViewOf(old(d.root), at) || src !in ViewOf(old(d.root), at)
    ensures ParentThere(old(d.root), at, dst) ==>
              (o == Done ==> Spent(old(d.budget), d.budget, 1)) &&
              (o == Stopped ==> old(d.budget) == Steps(0))
    ensures old(d.budget) == Steps(0) ==> d.root == old(d.root) && d.budget == old(d.budget)
  {
    hide ViewOf, Put, Del, MakeDirs, Get, DirPath, CanPut, Apart, Clear, Separate;
    ghost var t := d.root;
    ClearParent(t, at, src);
    ClearParent(t, at, dst);
    ghost var made;
    o, made := d.MovePath(at[src], at[dst]);
    if o == Done {
      MovedAfterParents(t, at, src, dst);
    } else {
      ParentsMade(t, at, dst, made);
      if o == Refused {
        MoveRefused(t, at, src, dst);
      }
    }
  }

  /** The nodes of the tree at a place. */
  ghost function LiveNodes(v: View, p: Place): nat {
    if p in v then Nodes(v[p]) else 0
  }

  method RemovePlace(d: Disk, at: Places, p: Place) returns (o: Outcome)
    requires Separate(at) && Clear(d.root, at)
    modifies d
    ensures Clear(d.root, at)
    ensures ParentsKept(old(d.root), d.root, at)
    ensures d.budget.Unlimited? <==> old(d.budget).Unlimited?
    ensures o == Stopped ==> !old(d.budget).Unlimited?
    ensures o != Refused
    ensures o == Done ==> ViewOf(d.root, at) == ViewOf(old(d.root), at) - {p}
    ensures o == Stopped ==>
              var v, w := ViewOf(old(d.root), at), ViewOf(d.root, at);
              w == v || (HasDir(v, p) && HasDir(w, p) && w == v[p := w[p]])
    ensures if o == Done then Spent(old(d.budget), d.budget, LiveNodes(ViewOf(old(d.root), at), p))
            else Short(old(d.budget), LiveNodes(ViewOf(old(d.root), at), p)) &&
                 d.budget == Steps(0)
    ensures old(d.budget) == Steps(0) ==> d.root == old(d.root) && d.budget == old(d.budget)
  {
    hide ViewOf, Nodes;
    ghost var t := d.root;
    ClearParent(t, at, p);
    ghost var left;
    o, left := d.RemovePath(at[p]);
    ViewLookup(t, at, p);
    if o == Done {
      ViewDel(t, at, p);
    } else {
      ViewPut(t, at, p, left.value);
    }
  }

  method WritePlace(d: Disk, at: Places, p: Place, content: Content, mode: nat)
    returns (o: Outcome)
    requires Separate(at) && Clear(d.root, at) && !p.SavedConfig? && !p.SavedAnchor?
    modifies d
    ensures Clear(d.root, at)
    ensures ParentsKept(old(d.root), d.root, at)
    ensures d.budget.Unlimited? <==> old(d.budget).Unlimited?
    ensures o == Stopped ==> !old(d.budget).Unlimited?
    ensures o == Done ==>
              SafeAt(d.root, at, p) && !NoFileAt(ViewOf(old(d.root), at), p) &&
              ViewOf(d.root, at) == ViewOf(old(d.root), at)[p := File(content, mode)]
    ensures o != Done ==> ViewOf(d.root, at) == ViewOf(old(d.root), at)
    ensures o == Done && IsDir(old(d.root), Parent(at[p])) ==>
              CanPut(old(d.root), at[p]) &&
              d.root == Put(old(d.root), at[p], File(content, mode))
    ensures o == Refused ==>
              NoFileAt(ViewOf(old(d.root), at), p) || !SafeAt(old(d.root), at, p)
    ensures old(d.budget) == Steps(0) ==>
              o != Done && d.root == old(d.root) && d.budget == old(d.budget)
  {
    hide ViewOf, Get, Put, MakeDirs, DirPath, SafePath, CanPut, Apart, Clear, Separate;
    ghost var t, q := d.root, at[p];
    ClearParent(t, at, p);
    ghost var made;
    o, made := d.AtomicWrite(at[p], content, mode);
    ParentsMade(t, at, p, made);
    ParentsMade(t, at, p, |Parent(q)|);
    assert Parent(q)[..|Parent(q)|] == Parent(q);
    ghost var u := MakeDirs(t, Parent(q), DIR_MODE);
    ViewLookup(u, at, p);
    ViewLookup(t, at, p);
    if o == Done {
      assert SafeAt(t, at, p);
      if IsDir(t, Parent(q)) {
        MakeDirsExisting(t, Parent(q), |Parent(q)|, DIR_MODE);
      }
      ViewPut(u, at, p, File(content, mode));
      assert SafeAt(u, at, p);
    }
  }

  /** `Path.mkdir` of one directory whose parent exists. */
  method MakePlace(d: Disk, at: Places, p: Place, mode: nat) returns (o: Outcome)
    requires Separate(at) && Clear(d.root, at)
    requires at[p] != [] && IsDir(d.root, Parent(at[p])) && NoWitness(p)
    modifies d
    ensures Clear(d.root, at)
    ensures ParentsKept(old(d.root), d.root, at)
    ensures d.budget.Unlimited? <==> old(d.budget).Unlimited?
    ensures o == Stopped ==> !old(d.budget).Unlimited?
    ensures o == Done ==>
              ViewOf(d.root, at) == ViewOf(old(d.root), at)[p := Dir(mode, map[])]
    ensures o != Done ==> d.root == old(d.root)
    ensures o == Refused <==> p in ViewOf(old(d.root), at)
  {
    hide ViewOf;
    ViewLookup(d.root, at, p);
    CanPutIffParentDir(d.root, at[p]);
    ViewPut(d.root, at, p, Dir(mode, map[]));
    o := d.MakeDirectory(at[p], mode);
  }

  method CopyPlace(d: Disk, at: Places, src: Place, dst: Place) returns (o: Outcome)
    requires Separate(at) && Clear(d.root, at)
    requires at[dst] != [] && IsDir(d.root, Parent(at[dst])) && Supported(d.root, at, dst)
    modifies d
    ensures Clear(d.root, at)
    ensures ParentsKept(old(d.root), d.root, at)
    ensures d.budget.Unlimited? <==> old(d.budget).Unlimited?
    ensures o == Stopped ==> !old(d.budget).Unlimited?
    ensures o == Done ==>
              var v := ViewOf(old(d.root), at);
              src in v && ViewOf(d.root, at) == v[dst := v[src]]
    ensures o != Done ==> d.root == old(d.root)
    ensures o == Refused ==>
              var v := ViewOf(old(d.root), at);
              src !in v || !v[src].File? || dst in v
  {
    hide ViewOf;
    ghost var t := d.root;
    ClearParent(t, at, dst);
    CanPutIffParentDir(t, at[dst]);
    o := d.CopyFile(at[src], at[dst]);
    ViewLookup(t, at, src);
    ViewLookup(t, at, dst);
    if o == Done {
      ViewPut(t, at, dst, Get(t, at[src]).value);
    }
  }

  /** The view once child `n` has gone from the directory at `src` to that at `dst`. */
  function ChildMoved(v: View, src: Place, dst: Place, n: Name): View
    requires HasDir(v, src) && HasDir(v, dst) && n in v[src].entries
  {
    v[src := WithoutEntry(v[src], n)][dst := WithEntry(v[dst], n, v[src].entries[n])]
  }

  lemma MovedChild(t: Node, at: Places, src: Place, dst: Place, n: Name)
    requires Separate(at) && Clear(t, at) && src != dst
    requires HasDir(ViewOf(t, at), src) && HasDir(ViewOf(t, at), dst)
    requires Get(t, at[src] + [n]).Some? && CanPut(Del(t, at[src] + [n]), at[dst] + [n])
    ensures var v := ViewOf(t, at);
            var x := Get(t, at[src] + [n]).value;
            var u := Put(Del(t, at[src] + [n]), at[dst] + [n], x);
            n in v[src].entries && Clear(u, at) && ParentsKept(t, u, at) &&
            ViewOf(u, at) == ChildMoved(v, src, dst, n)
  {
    hide ViewOf;
    ChildPlace(t, at, src, n);
    ViewDelChild(t, at, src, n);
    ViewPutChild(Del(t, at[src] + [n]), at, dst, n, Get(t, at[src] + [n]).value);
  }

  /** Nothing is created on the way to a child of an existing directory. */
  lemma ChildOfDirectory(t: Node, at: Places, a: Place, n: Name)
    requires Clear(t, at) && HasDir(ViewOf(t, at), a)
    ensures Parent(at[a] + [n]) == at[a] && IsDir(t, at[a]) && DirPath(t, at[a])
  {
    hide ViewOf;
    ViewLookup(t, at, a);
    ChildPlace(t, at, a, n);
  }

  /** `move_path` into a directory that exists: no parent has to be created. */
  method MoveIntoDirectory(d: Disk, src: Path, dst: Path) returns (o: Outcome)
    requires src != [] && dst != [] && !(src <= dst)
    requires IsDir(d.root, Parent(dst)) && DirPath(d.root, Parent(dst))
    modifies d
    ensures d.budget.Unlimited? <==> old(d.budget).Unlimited?
    ensures o == Stopped ==> !old(d.budget).Unlimited?
    ensures o == Done ==>
              var t := old(d.root);
              Get(t, src).Some? && Get(t, dst).None? && CanPut(Del(t, src), dst) &&
              d.root == Put(Del(t, src), dst, Get(t, src).value)
    ensures o != Done ==> d.root == old(d.root)
    ensures o == Refused ==> Get(old(d.root), dst).Some? || Get(old(d.root), src).None?
    ensures o == Done ==> Spent(old(d.budget), d.budget, 1)
    ensures o == Stopped ==> old(d.budget) == Steps(0)
    ensures old(d.budget) == Steps(0) ==> d.root == old(d.root) && d.budget == old(d.budget)
  {
    hide Put, Del, MakeDirs, Get, DirPath, CanPut;
    MakeDirsResult(d.root, Parent(dst), DIR_MODE);
    ghost var made;
    o, made := d.MovePath(src, dst);
    if o != Done {
      MakeDirsExisting(old(d.root), Parent(dst), made, DIR_MODE);
    }
  }

  /** Move one child of the directory at `src` to the directory at `dst`. */
  method MoveChild(d: Disk, at: Places, src: Place, dst: Place, n: Name) returns (o: Outcome)
    requires Separate(at) && Clear(d.root, at) && src != dst
    requires HasDir(ViewOf(d.root, at), src) && HasDir(ViewOf(d.root, at), dst)
    modifies d
    ensures Clear(d.root, at)
    ensures ParentsKept(old(d.root), d.root, at)
    ensures d.budget.Unlimited? <==> old(d.budget).Unlimited?
    ensures o == Stopped ==> !old(d.budget).Unlimited?
    ensures o == Done ==>
              var v := ViewOf(old(d.root), at);
              n in v[src].entries && n !in v[dst].entries &&
              ViewOf(d.root, at) == ChildMoved(v, src, dst, n)
    ensures o != Done ==> ViewOf(d.root, at) == ViewOf(old(d.root), at)
    ensures o == Refused ==>
              var v := ViewOf(old(d.root), at);
              n in v[dst].entries || n !in v[src].entries
    ensures o == Done ==> Spent(old(d.budget), d.budget, 1)
    ensures o == Stopped ==> old(d.budget) == Steps(0)
    ensures old(d.budget) == Steps(0) ==> d.root == old(d.root) && d.budget == old(d.budget)
  {
    hide ViewOf, Put, Del, MakeDirs, Get, DirPath, CanPut, Apart, ChildMoved;
    ghost var t := d.root;
    var from, to := at[src] + [n], at[dst] + [n];
    assert !(from <= to) by {
      assert Disjoint(at, src, dst);
      ApartBelow(at[src], at[dst], [n], [n]);
      ApartIffIncomparable(from, to);
    }
    ChildPlace(t, at, src, n);
    ChildPlace(t, at, dst, n);
    ChildOfDirectory(t, at, dst, n);
    o := MoveIntoDirectory(d, from, to);
    if o == Done {
      MovedChild(t, at, src, dst, n);
    }
  }

  /** The two views differ at most inside child `n` of the directory at `a`. */
  predicate DifferInChild(v: View, w: View, a: Place, n: Name) {
    HasDir(v, a) && HasDir(w, a) && w == v[a := w[a]] && w[a].mode == v[a].mode &&
    w[a].entries.Keys == v[a].entries.Keys && w[a].entries - {n} == v[a].entries - {n}
  }

  lemma PartlyRemoved(t: Node, at: Places, a: Place, n: Name, x: Node)
    requires Separate(at) && Clear(t, at) && HasDir(ViewOf(t, at), a)
    requires CanPut(t, at[a] + [n]) && n in ViewOf(t, at)[a].entries
    ensures var u := Put(t, at[a] + [n], x);
            Clear(u, at) && ParentsKept(t, u, at) &&
            DifferInChild(ViewOf(t, at), ViewOf(u, at), a, n)
  {
    hide ViewOf;
    ViewPutChild(t, at, a, n, x);
  }

  /** Remove one child of the directory at `a`. */
  method RemoveChild(d: Disk, at: Places, a: Place, n: Name) returns (o: Outcome)
    requires Separate(at) && Clear(d.root, at) && HasDir(ViewOf(d.root, at), a)
    modifies d
    ensures Clear(d.root, at)
    ensures ParentsKept(old(d.root), d.root, at)
    ensures d.budget.Unlimited? <==> old(d.budget).Unlimited?
    ensures o == Stopped ==> !old(d.budget).Unlimited?
    ensures o != Refused
    ensures o == Done ==>
              var v := ViewOf(old(d.root), at);
              ViewOf(d.root, at) == v[a := WithoutEntry(v[a], n)]
    ensures o == Stopped ==> DifferInChild(ViewOf(old(d.root), at), ViewOf(d.root, at), a, n)
    ensures var v := ViewOf(old(d.root), at);
            var cost := if n in v[a].entries then Nodes(v[a].entries[n]) else 0;
            if o == Done then Spent(old(d.budget), d.budget, cost)
            else Short(old(d.budget), cost) && d.budget == Steps(0)
    ensures old(d.budget) == Steps(0) ==> d.root == old(d.root) && d.budget == old(d.budget)
  {
    hide ViewOf, Put, Del, Get, DirPath, CanPut, DifferInChild, Nodes;
    ghost var t := d.root;
    ChildPlace(t, at, a, n);
    ghost var left;
    o, left := d.RemovePath(at[a] + [n]);
    if o == Done {
      ViewDelChild(t, at, a, n);
    } else {
      PartlyRemoved(t, at, a, n, left.value);
    }
  }
}
