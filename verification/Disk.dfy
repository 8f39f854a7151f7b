/**
 The mutable filesystem and the primitive operations of the checkpoint code.

 Each change of the tree spends one step of a budget. When the budget is used
 up the operation in progress stops where it is: that is a crash, or an
 operating-system error raised, between any two steps. With an unlimited
 budget nothing stops.
 */
module Disks {
  import opened Base
  import opened FileTree
  import opened Fsutil

  datatype Budget = Unlimited | Steps(left: nat)

  /** Refused: the program itself raised an error. Stopped: cut between two steps. */
  datatype Outcome = Done | Stopped | Refused

  /** A finished operation has used up this many steps. */
  predicate Spent(before: Budget, after: Budget, cost: nat) {
    if before.Unlimited? then after.Unlimited?
    else before.left >= cost && after == Steps(before.left - cost)
  }

  /** A budget that does not pay for this many steps. */
  predicate Short(before: Budget, cost: nat) {
    before.Steps? && before.left < cost
  }

  /** Permission bits of directories created on the way. */
  const DIR_MODE: nat := 0x1ED

  /** The nodes at a path, none when nothing is there. */
  ghost function NodesAt(t: Node, p: Path): nat {
    if Get(t, p).Some? then Nodes(Get(t, p).value) else 0
  }

  class Disk {
    var root: Node
    var budget: Budget

    constructor (root: Node, budget: Budget)
      ensures this.root == root && this.budget == budget
    {
      this.root := root;
      this.budget := budget;
    }

    method Tick() returns (go: bool)
      modifies this`budget
      ensures budget.Unlimited? <==> old(budget).Unlimited?
      ensures go <==> old(budget).Unlimited? || old(budget).left > 0
      ensures if go then Spent(old(budget), budget, 1) else budget == old(budget) == Steps(0)
    {
      if budget.Unlimited? {
        return true;
      }
      if budget.left == 0 {
        return false;
      }
      budget := Steps(budget.left - 1);
      return true;
    }

    /** `Path.mkdir(parents=True, exist_ok=True)`, topmost missing parent first. */
    method MakeDirectories(p: Path) returns (o: Outcome, ghost made: nat)
      modifies this
      ensures budget.Unlimited? <==> old(budget).Unlimited?
      ensures made <= |p|
      ensures o == Refused <==> !DirPath(old(root), p)
      ensures o == Done ==> root == MakeDirs(old(root), p, 0x1ED)
      ensures o == Stopped ==> !old(budget).Unlimited? && DirPath(old(root), p[..made]) &&
                               root == MakeDirs(old(root), p[..made], 0x1ED)
      ensures o == Refused ==> root == old(root)
      ensures IsDir(old(root), p) ==> o == Done && root == old(root) && budget == old(budget)
      ensures old(budget) == Steps(0) ==> root == old(root) && budget == old(budget)
    {
      made := 0;
      if IsDir(root, p) {
        MakeDirsExisting(root, p, |p|, DIR_MODE);
        assert p[..|p|] == p;
      }
      if !DirPath(root, p) {
        return Refused, 0;
      }
      ghost var before := root;
      var k := 0;
      while k < |p|
        invariant k <= |p|
        invariant DirPath(before, p[..k]) && root == MakeDirs(before, p[..k], DIR_MODE)
        invariant budget.Unlimited? <==> old(budget).Unlimited?
        invariant IsDir(before, p) || old(budget) == Steps(0) ==>
                    root == before && budget == old(budget)
      {
        assert p[..k + 1] == p[..k] + [p[k]];
        assert p == p[..k + 1] + p[k + 1..];
        DirPathDown(before, p[..k + 1], p[k + 1..]);
        MakeDirsSnoc(before, p[..k], p[k], DIR_MODE);
        if IsDir(before, p) {
          Existing(before, p[..k + 1], p[k + 1..]);
        }
        if Get(root, p[..k + 1]).None? {
          var go := Tick();
          if !go {
            return Stopped, k;
          }
          root := Put(root, p[..k + 1], Dir(DIR_MODE, map[]));
        }
        k := k + 1;
      }
      assert p[..|p|] == p;
      return Done, |p|;
    }

    /** `shutil.rmtree`: every entry below a directory, then the directory. */
    method RemoveTree(p: Path, ghost node: Node) returns (o: Outcome, ghost left: Node)
      requires p != [] && Get(root, p) == Some(node)
      modifies this
      decreases node
      ensures budget.Unlimited? <==> old(budget).Unlimited?
      ensures o != Refused
      ensures o == Done ==> root == Del(old(root), p)
      ensures o == Stopped ==> !old(budget).Unlimited? && CanPut(old(root), p) &&
                               left.Dir? == node.Dir? && (!node.Dir? ==> left == node) &&
                               root == Put(old(root), p, left)
      ensures if o == Done then Spent(old(budget), budget, Nodes(node))
              else Short(old(budget), Nodes(node)) && budget == Steps(0)
      ensures old(budget) == Steps(0) ==> root == old(root)
    {
      hide Put, Del, Nodes, NodesIn, CanPut;
      NodesOf(node);
      ghost var before := root;
      ghost var paid: nat := 0;
      PutGet(before, p);
      left := node;
      var here := Get(root, p).value;
      if here.Dir? {
        var names := here.entries.Keys;
        assert (map n | n in names :: node.entries[n]) == node.entries;
        while names != {}
          invariant names <= node.entries.Keys
          invariant CanPut(before, p)
          invariant left == Dir(node.mode, map n | n in names :: node.entries[n])
          invariant root == Put(before, p, left)
          invariant budget.Unlimited? <==> old(budget).Unlimited?
          invariant Spent(old(budget), budget, paid)
          invariant paid + NodesIn(node, names) == NodesIn(node, node.entries.Keys)
          invariant paid == 0 ==> root == before
          decreases |names|
        {
          var n :| n in names;
          NodesInStep(node, names, n);
          GetPutSame(before, p, left);
          GetBelow(root, p, [n]);
          EntryAt(left, n);
          var result, rest := RemoveTree(p + [n], node.entries[n]);
          if result == Stopped {
            EntryPut(left, n, rest);
            PutInside(before, p, left, [n], rest);
            left := Put(left, [n], rest);
            return Stopped, left;
          }
          paid := paid + Nodes(node.entries[n]);
          DelInside(before, p, left, [n]);
          names := names - {n};
          ghost var rest' := Dir(node.mode, map m | m in names :: node.entries[m]);
          RemovedEntry(left, n);
          assert left.entries - {n} == rest'.entries;
          left := rest';
        }
      }
      var go := Tick();
      if !go {
        return Stopped, left;
      }
      DelPut(before, p, left);
      root := Del(root, p);
      return Done, left;
    }

    /** `remove_path`: a file, a link or a whole directory, when it exists. */
    method RemovePath(p: Path) returns (o: Outcome, ghost left: Option<Node>)
      requires p != []
      modifies this
      ensures budget.Unlimited? <==> old(budget).Unlimited?
      ensures o != Refused
      ensures o == Done ==> root == Del(old(root), p)
      ensures if o == Done then Spent(old(budget), budget, NodesAt(old(root), p))
              else Short(old(budget), NodesAt(old(root), p)) && budget == Steps(0)
      ensures old(budget) == Steps(0) ==> root == old(root) && budget == old(budget)
      ensures o == Stopped ==> !old(budget).Unlimited? && Get(old(root), p).Some? &&
                               left.Some? && CanPut(old(root), p) &&
                               left.value.Dir? == Get(old(root), p).value.Dir? &&
                               (!left.value.Dir? ==> left == Get(old(root), p)) &&
                               root == Put(old(root), p, left.value)
    {
      left := None;
      if Get(root, p).None? {
        DelAbsent(root, p);
        return Done, left;
      }
      ghost var rest;
      o, rest := RemoveTree(p, Get(root, p).value);
      left := Some(rest);
    }

    /**
     `move_path`: create the parents of the destination, refuse an existing
     destination, then rename in one step.
     */
    method MovePath(src: Path, dst: Path) returns (o: Outcome, ghost made: nat)
      requires src != [] && dst != []
      modifies this
      ensures budget.Unlimited? <==> old(budget).Unlimited?
      ensures o == Stopped ==> !old(budget).Unlimited?
      ensures made <= |Parent(dst)|
      ensures o != Done ==> (o == Refused && root == old(root)) ||
                            (DirPath(old(root), Parent(dst)[..made]) &&
                             root == MakeDirs(old(root), Parent(dst)[..made], DIR_MODE))
      ensures o == Done ==>
                DirPath(old(root), Parent(dst)) &&
                var u := MakeDirs(old(root), Parent(dst), DIR_MODE);
                Get(u, src).Some? && Get(u, dst).None? && !(src <= dst) &&
                CanPut(Del(u, src), dst) &&
                root == Put(Del(u, src), dst, Get(u, src).value)
      ensures o == Refused && DirPath(old(root), Parent(dst)) ==>
                var u := MakeDirs(old(root), Parent(dst), DIR_MODE);
                Get(u, dst).Some? || Get(u, src).None? || src <= dst
      ensures IsDir(old(root), Parent(dst)) ==>
                (o == Done ==> Spent(old(budget), budget, 1)) &&
                (o == Stopped ==> old(budget) == Steps(0))
      ensures old(budget) == Steps(0) ==> root == old(root) && budget == old(budget)
    {
      o, made := MakeDirectories(Parent(dst));
      if o != Done {
        return;
      }
      made := |Parent(dst)|;
      ghost var u := root;
      assert Parent(dst)[..made] == Parent(dst);
      MakeDirsResult(old(root), Parent(dst), DIR_MODE);
      if Get(root, dst).Some? {
        return Refused, made;
      }
      var go := Tick();
      if !go {
        return Stopped, made;
      }
      if Get(root, src).None? || src <= dst {
        return Refused, made;
      }
      var node := Get(root, src).value;
      DeletedElsewhere(root, src, Parent(dst));
      CanPutIffParentDir(Del(root, src), dst);
      root := Put(Del(root, src), dst, node);
      return Done, made;
    }

    /** `Path.mkdir` of one directory. */
    method MakeDirectory(p: Path, mode: nat) returns (o: Outcome)
      requires p != []
      modifies this
      ensures budget.Unlimited? <==> old(budget).Unlimited?
      ensures o == Stopped ==> !old(budget).Unlimited?
      ensures o == Refused <==> Get(old(root), p).Some? || !CanPut(old(root), p)
      ensures o == Done ==> root == Put(old(root), p, Dir(mode, map[]))
      ensures o != Done ==> root == old(root)
    {
      if Get(root, p).Some? || !CanPut(root, p) {
        return Refused;
      }
      var go := Tick();
      if !go {
        return Stopped;
      }
      root := Put(root, p, Dir(mode, map[]));
      return Done;
    }

    /**
     `atomic_write`: `ensure_root_parent` refuses a link, and parents that others
     may change, and creates the missing ones; then the file is replaced in one
     step.
     */
    method AtomicWrite(p: Path, content: Content, mode: nat) returns (o: Outcome, ghost made: nat)
      requires p != []
      modifies this
      ensures budget.Unlimited? <==> old(budget).Unlimited?
      ensures o == Stopped ==> !old(budget).Unlimited?
      ensures made <= |Parent(p)|
      ensures o != Done ==> (o == Refused && root == old(root)) ||
                            (DirPath(old(root), Parent(p)[..made]) &&
                             root == MakeDirs(old(root), Parent(p)[..made], DIR_MODE))
      ensures o == Done ==>
                SafePath(old(root), Parent(p)) && DirPath(old(root), Parent(p)) &&
                !IsLink(old(root), p) &&
                var u := MakeDirs(old(root), Parent(p), DIR_MODE);
                CanPut(u, p) && !IsDir(u, p) && root == Put(u, p, File(content, mode))
      ensures o == Refused && SafePath(old(root), Parent(p)) && !IsLink(old(root), p) ==>
                DirPath(old(root), Parent(p)) &&
                IsDir(MakeDirs(old(root), Parent(p), DIR_MODE), p)
      ensures old(budget) == Steps(0) ==>
                o != Done && root == old(root) && budget == old(budget)
    {
      if IsLink(root, p) || !SafePath(root, Parent(p)) {
        return Refused, 0;
      }
      SafeIsDirPath(root, Parent(p));
      o, made := MakeDirectories(Parent(p));
      if o != Done {
        return;
      }
      made := |Parent(p)|;
      assert Parent(p)[..made] == Parent(p);
      MakeDirsResult(old(root), Parent(p), DIR_MODE);
      CanPutIffParentDir(root, p);
      if IsDir(root, p) {
        return Refused, made;
      }
      var go := Tick();
      if !go {
        return Stopped, made;
      }
      root := Put(root, p, File(content, mode));
      return Done, made;
    }

    /** `shutil.copy2` of a regular file onto a free name, taken as one step. */
    method CopyFile(src: Path, dst: Path) returns (o: Outcome)
      requires dst != []
      modifies this
      ensures budget.Unlimited? <==> old(budget).Unlimited?
      ensures o == Stopped ==> !old(budget).Unlimited?
      ensures o != Done ==> root == old(root)
      ensures o == Done ==> Get(old(root), src).Some? && CanPut(old(root), dst) &&
                            root == Put(old(root), dst, Get(old(root), src).value)
      ensures o == Refused ==> Get(old(root), src).None? || !Get(old(root), src).value.File? ||
                               !CanPut(old(root), dst) || Get(old(root), dst).Some?
    {
      var node := Get(root, src);
      if node.None? || !node.value.File? || !CanPut(root, dst) || Get(root, dst).Some? {
        return Refused;
      }
      var go := Tick();
      if !go {
        return Stopped;
      }
      root := Put(root, dst, node.value);
      return Done;
    }
  }

  lemma EntryAt(t: Node, n: Name)
    requires t.Dir? && n in t.entries
    ensures Get(t, [n]) == Some(t.entries[n])
  {
  }

  lemma EntryPut(t: Node, n: Name, v: Node)
    requires t.Dir?
    ensures CanPut(t, [n]) && Put(t, [n], v).Dir?
  {
  }

  lemma RemovedEntry(t: Node, n: Name)
    requires t.Dir? && n in t.entries
    ensures Del(t, [n]) == t.(entries := t.entries - {n})
  {
  }
}
