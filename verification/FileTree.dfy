/**
 Filesystem trees and the four ways the program changes them: put a node at a
 path, delete the node at a path, create missing parent directories, and move a
 node by deleting it in one place and putting it in another.
 */
module FileTree {
  import opened Base

  type Name = string

  /** An absolute path: the names below the filesystem root. */
  type Path = seq<Name>

  /** Which durable state a rollback receipt records. */
  datatype ReceiptState = Installing | Installed | AutomaticallyRolledBack | RolledBack

  datatype LivePaths = LivePaths(
    reth: Path, summit: Path, keys: Path, checkpoint: Path, config: Path, weak: Path)

  /** Which of the five named items existed before the installation. */
  datatype Previous = Previous(
    rethDb: bool, rethStatic: bool, checkpoint: bool, config: bool, weak: bool)

  datatype Receipt = Receipt(
    state: ReceiptState, role: string, epoch: nat, hostname: string,
    paths: LivePaths, previous: Previous)

  /**
   What a file holds, after decoding. JSON and TOML encoding and decoding are
   taken to be inverse to each other and are not modelled further.
   */
  datatype Content =
    | Bytes(bytes: seq<Byte>)
    | ReceiptJson(receipt: Receipt)
    | StartConfigToml(checkpointPath: Path, weakPath: Path)
    | AnchorToml(epoch: nat, headerDigest: string)
    | MetadataJson(snapshotEpoch: nat, blockNumber: nat, timestamp: string)

  datatype Node =
    | File(content: Content, mode: nat)
    | Dir(mode: nat, entries: map<Name, Node>)
    | Symlink(target: Path)

  // ---------------------------------------------------------------------
  // Paths
  // ---------------------------------------------------------------------

  /** Neither path is the other one or lies below it. */
  predicate Apart(p: Path, q: Path) {
    p != [] && q != [] && (p[0] != q[0] || Apart(p[1..], q[1..]))
  }

  function Parent(p: Path): Path
    requires p != []
  {
    p[..|p| - 1]
  }

  lemma {:induction false} ApartIffIncomparable(p: Path, q: Path)
    ensures Apart(p, q) <==> !(p <= q) && !(q <= p)
  {
    if p != [] && q != [] && p[0] == q[0] {
      ApartIffIncomparable(p[1..], q[1..]);
      assert p == [p[0]] + p[1..] && q == [q[0]] + q[1..];
      assert p <= q <==> p[1..] <= q[1..];
      assert q <= p <==> q[1..] <= p[1..];
    }
  }

  lemma {:induction false} ApartSymmetric(p: Path, q: Path)
    ensures Apart(p, q) == Apart(q, p)
  {
    ApartIffIncomparable(p, q);
    ApartIffIncomparable(q, p);
  }

  lemma {:induction false} ApartBelow(p: Path, q: Path, x: Path, y: Path)
    requires Apart(p, q)
    ensures Apart(p + x, q + y)
  {
    assert (p + x)[0] == p[0] && (q + y)[0] == q[0];
    if p[0] == q[0] {
      ApartBelow(p[1..], q[1..], x, y);
      assert (p + x)[1..] == p[1..] + x && (q + y)[1..] == q[1..] + y;
    }
  }

  lemma {:induction false} ApartSiblings(p: Path, x: Path, y: Path)
    ensures Apart(p + x, p + y) == Apart(x, y)
  {
    if p == [] {
      assert p + x == x && p + y == y;
    } else {
      ApartSiblings(p[1..], x, y);
      assert (p + x)[1..] == p[1..] + x && (p + y)[1..] == p[1..] + y;
    }
  }

  // ---------------------------------------------------------------------
  // Reading and changing a tree
  // ---------------------------------------------------------------------

  function Get(t: Node, p: Path): (r: Option<Node>) {
    if p == [] then Some(t)
    else if t.Dir? && p[0] in t.entries then Get(t.entries[p[0]], p[1..])
    else None
  }

  predicate IsDir(t: Node, p: Path) {
    Get(t, p).Some? && Get(t, p).value.Dir?
  }

  /** `Path.exists`: a link exists when its target does. */
  predicate Exists(t: Node, p: Path) {
    match Get(t, p)
    case None => false
    case Some(Symlink(target)) => Get(t, target).Some?
    case Some(_) => true
  }

  /** Every existing node on the way to `p`, `p` included, is a directory. */
  predicate DirPath(t: Node, p: Path) {
    t.Dir? && (p != [] && p[0] in t.entries ==> DirPath(t.entries[p[0]], p[1..]))
  }

  /** `mode & 0o022`: writable by the group or by everyone. */
  predicate SharedWritable(mode: nat) {
    (mode / 16) % 2 == 1 || (mode / 2) % 2 == 1
  }

  /** As `DirPath`, and only their owner may change these directories. */
  predicate SafePath(t: Node, p: Path) {
    t.Dir? && !SharedWritable(t.mode) &&
    (p != [] && p[0] in t.entries ==> SafePath(t.entries[p[0]], p[1..]))
  }

  /** Neither the path nor anything on the way to it is a link: it resolves to itself. */
  predicate ResolvesToItself(t: Node, p: Path) {
    !t.Symlink? &&
    (t.Dir? && p != [] && p[0] in t.entries ==> ResolvesToItself(t.entries[p[0]], p[1..]))
  }

  predicate IsLink(t: Node, p: Path) {
    Get(t, p).Some? && Get(t, p).value.Symlink?
  }

  predicate CanPut(t: Node, p: Path) {
    p == [] ||
    (t.Dir? && (|p| == 1 || (p[0] in t.entries && CanPut(t.entries[p[0]], p[1..]))))
  }

  function Put(t: Node, p: Path, v: Node): (r: Node)
    requires CanPut(t, p)
  {
    if p == [] then v
    else t.(entries := t.entries[p[0] :=
      if |p| == 1 then v else Put(t.entries[p[0]], p[1..], v)])
  }

  function Del(t: Node, p: Path): (r: Node)
    requires p != []
  {
    if !t.Dir? || p[0] !in t.entries then t
    else if |p| == 1 then t.(entries := t.entries - {p[0]})
    else t.(entries := t.entries[p[0] := Del(t.entries[p[0]], p[1..])])
  }

  /** Create `p` and its missing parents as empty directories. */
  function MakeDirs(t: Node, p: Path, mode: nat): (r: Node)
    requires DirPath(t, p)
    decreases |p|
  {
    if p == [] then t
    else
      var child := if p[0] in t.entries then t.entries[p[0]] else Dir(mode, map[]);
      t.(entries := t.entries[p[0] := MakeDirs(child, p[1..], mode)])
  }

  /** How many nodes a tree has: the steps it takes to remove it. */
  ghost function Nodes(t: Node): (k: nat)
    ensures k > 0
    decreases t, 1, 0
  {
    1 + if t.Dir? then NodesIn(t, t.entries.Keys) else 0
  }

  ghost function NodesIn(t: Node, names: set<Name>): nat
    requires t.Dir? && names <= t.entries.Keys
    decreases t, 0, |names|
  {
    if names == {} then 0
    else
      var n :| n in names;
      Nodes(t.entries[n]) + NodesIn(t, names - {n})
  }

  lemma NodesOf(t: Node)
    ensures Nodes(t) == 1 + if t.Dir? then NodesIn(t, t.entries.Keys) else 0
    ensures t.Dir? ==> NodesIn(t, {}) == 0
  {
  }

  /** The count does not depend on the order. */
  lemma {:induction false} NodesInStep(t: Node, names: set<Name>, n: Name)
    requires t.Dir? && n in names && names <= t.entries.Keys
    ensures NodesIn(t, names) == Nodes(t.entries[n]) + NodesIn(t, names - {n})
    decreases |names|
  {
    var m :| m in names && NodesIn(t, names) == Nodes(t.entries[m]) + NodesIn(t, names - {m});
    if m != n {
      NodesInStep(t, names - {m}, n);
      NodesInStep(t, names - {n}, m);
      assert names - {m} - {n} == names - {n} - {m};
    }
  }

  // ---------------------------------------------------------------------
  // What each change keeps
  // ---------------------------------------------------------------------

  lemma {:induction false} GetBelow(t: Node, p: Path, r: Path)
    requires Get(t, p).Some?
    ensures Get(t, p + r) == Get(Get(t, p).value, r)
  {
    if p == [] {
      assert p + r == r;
    } else {
      GetBelow(t.entries[p[0]], p[1..], r);
      assert (p + r)[1..] == p[1..] + r;
    }
  }

  lemma Halves(q: nat, r: nat)
    requires r < 2
    ensures (2 * q + r) / 2 == q && (2 * q + r) % 2 == r
  {
  }

  /** The write bit is the second of an octal digit. */
  lemma WriteBit(rest: nat, digit: nat)
    requires digit < 8
    ensures ((8 * rest + digit) / 2) % 2 == 1 <==> digit in {2, 3, 6, 7}
  {
    Halves(4 * rest + digit / 2, digit % 2);
    Halves(2 * rest + digit / 4, digit / 2 % 2);
  }

  /** The permission bits in octal: the write bits of the group and of the others. */
  lemma SharedWritableDigits(upper: nat, group: nat, others: nat)
    requires group < 8 && others < 8
    ensures SharedWritable(64 * upper + 8 * group + others) <==>
            group in {2, 3, 6, 7} || others in {2, 3, 6, 7}
  {
    var mode := 64 * upper + 8 * group + others;
    assert mode == 8 * (8 * upper + group) + others;
    WriteBit(8 * upper + group, others);
    WriteBit(upper, group);
    assert mode / 8 == 8 * upper + group;
    assert mode / 16 == (8 * upper + group) / 2;
  }

  /** Nothing is at `p`, or a directory that neither the group nor others may write. */
  predicate NoneOrOwned(t: Node, p: Path) {
    match Get(t, p)
    case None => true
    case Some(Dir(mode, _)) => (mode / 16) % 2 == 0 && (mode / 2) % 2 == 0
    case Some(_) => false
  }

  /** `SafePath` looks at every path from the root to `p`, both included. */
  lemma {:induction false} SafePathByPrefix(t: Node, p: Path)
    ensures SafePath(t, p) <==> forall k :: 0 <= k <= |p| ==> NoneOrOwned(t, p[..k])
  {
    assert p[..0] == [] && Get(t, []) == Some(t);
    assert NoneOrOwned(t, p[..0]) <==> t.Dir? && !SharedWritable(t.mode);
    if p != [] && t.Dir? {
      forall k | 0 < k <= |p|
        ensures Get(t, p[..k]) ==
                if p[0] in t.entries then Get(t.entries[p[0]], p[1..][..k - 1]) else None
      {
        assert p[..k][1..] == p[1..][..k - 1];
      }
      if p[0] in t.entries {
        var child := t.entries[p[0]];
        SafePathByPrefix(child, p[1..]);
        forall k | 0 <= k <= |p[1..]|
          ensures NoneOrOwned(child, p[1..][..k]) <==> NoneOrOwned(t, p[..k + 1])
        {
        }
        if forall k :: 0 <= k <= |p| ==> NoneOrOwned(t, p[..k]) {
          forall k | 0 <= k <= |p[1..]|
            ensures NoneOrOwned(child, p[1..][..k])
          {
            assert NoneOrOwned(t, p[..k + 1]);
          }
        }
        if SafePath(child, p[1..]) {
          forall k | 0 < k <= |p|
            ensures NoneOrOwned(t, p[..k])
          {
            assert NoneOrOwned(child, p[1..][..k - 1]);
          }
        }
      }
    }
  }

  /** `ResolvesToItself` looks for a link on every path from the root to `p`, both included. */
  lemma {:induction false} ResolvesByPrefix(t: Node, p: Path)
    ensures ResolvesToItself(t, p) <==> forall k :: 0 <= k <= |p| ==> !IsLink(t, p[..k])
  {
    assert p[..0] == [] && Get(t, []) == Some(t);
    assert IsLink(t, p[..0]) <==> t.Symlink?;
    if p != [] && t.Dir? && p[0] in t.entries {
      var child := t.entries[p[0]];
      ResolvesByPrefix(child, p[1..]);
      forall k | 0 < k <= |p|
        ensures IsLink(t, p[..k]) <==> IsLink(child, p[1..][..k - 1])
      {
        assert p[..k][1..] == p[1..][..k - 1];
      }
      if forall k :: 0 <= k <= |p| ==> !IsLink(t, p[..k]) {
        forall k | 0 <= k <= |p[1..]|
          ensures !IsLink(child, p[1..][..k])
        {
          assert !IsLink(t, p[..k + 1]);
        }
      }
    }
  }

  lemma {:induction false} CanPutIffParentDir(t: Node, p: Path)
    requires p != []
    ensures CanPut(t, p) <==> IsDir(t, Parent(p))
  {
    if |p| > 1 && t.Dir? && p[0] in t.entries {
      CanPutIffParentDir(t.entries[p[0]], p[1..]);
      assert Parent(p)[1..] == Parent(p[1..]);
    }
  }

  lemma {:induction false} GetPutSame(t: Node, p: Path, v: Node)
    requires CanPut(t, p)
    ensures Get(Put(t, p, v), p) == Some(v)
  {
    if |p| > 1 {
      GetPutSame(t.entries[p[0]], p[1..], v);
    }
  }

  lemma {:induction false} GetPutApart(t: Node, p: Path, v: Node, q: Path)
    requires CanPut(t, p) && Apart(p, q)
    ensures Get(Put(t, p, v), q) == Get(t, q)
  {
    if p[0] == q[0] {
      GetPutApart(t.entries[p[0]], p[1..], v, q[1..]);
    }
  }

  /** A change below `p` is that change inside the node at `p`. */
  lemma {:induction false} GetPutAbove(t: Node, p: Path, r: Path, v: Node)
    requires CanPut(t, p + r) && Get(t, p).Some?
    ensures CanPut(Get(t, p).value, r)
    ensures Get(Put(t, p + r, v), p) == Some(Put(Get(t, p).value, r, v))
  {
    if p == [] {
      assert p + r == r;
    } else {
      assert (p + r)[1..] == p[1..] + r;
      if r == [] && |p| == 1 {
      } else {
        GetPutAbove(t.entries[p[0]], p[1..], r, v);
      }
    }
  }

  lemma {:induction false} GetDelSame(t: Node, p: Path)
    requires p != []
    ensures Get(Del(t, p), p) == None
  {
    if |p| > 1 && t.Dir? && p[0] in t.entries {
      GetDelSame(t.entries[p[0]], p[1..]);
    }
  }

  lemma {:induction false} GetDelApart(t: Node, p: Path, q: Path)
    requires p != [] && Apart(p, q)
    ensures Get(Del(t, p), q) == Get(t, q)
  {
    if p[0] == q[0] && t.Dir? && p[0] in t.entries {
      GetDelApart(t.entries[p[0]], p[1..], q[1..]);
    }
  }

  lemma {:induction false} GetDelAbove(t: Node, p: Path, r: Path)
    requires r != [] && Get(t, p).Some?
    ensures Get(Del(t, p + r), p) == Some(Del(Get(t, p).value, r))
  {
    if p == [] {
      assert p + r == r;
    } else {
      assert (p + r)[1..] == p[1..] + r;
      GetDelAbove(t.entries[p[0]], p[1..], r);
    }
  }

  lemma {:induction false} DelAbsent(t: Node, p: Path)
    requires p != [] && Get(t, p).None?
    ensures Del(t, p) == t
  {
    if |p| > 1 && t.Dir? && p[0] in t.entries {
      DelAbsent(t.entries[p[0]], p[1..]);
    }
  }

  lemma {:induction false} PutPut(t: Node, p: Path, v: Node, w: Node)
    requires CanPut(t, p)
    ensures CanPut(Put(t, p, v), p)
    ensures Put(Put(t, p, v), p, w) == Put(t, p, w)
  {
    if |p| > 1 {
      PutPut(t.entries[p[0]], p[1..], v, w);
    }
  }

  /** Putting inside a node already put at `p` is putting the changed node. */
  lemma {:induction false} PutInside(t: Node, p: Path, v: Node, r: Path, w: Node)
    requires CanPut(t, p) && CanPut(v, r)
    ensures CanPut(Put(t, p, v), p + r)
    ensures Put(Put(t, p, v), p + r, w) == Put(t, p, Put(v, r, w))
  {
    if p == [] {
      assert p + r == r;
    } else if r == [] {
      assert p + r == p;
      PutPut(t, p, v, w);
    } else {
      assert (p + r)[0] == p[0] && (p + r)[1..] == p[1..] + r;
      var n := p[0];
      var child := if |p| == 1 then v else Put(t.entries[n], p[1..], v);
      assert Put(t, p, v) == t.(entries := t.entries[n := child]);
      if |p| == 1 {
        assert p[1..] + r == r;
      } else {
        PutInside(t.entries[n], p[1..], v, r, w);
      }
      assert Put(Put(t, p, v), p + r, w).entries == t.entries[n := Put(child, p[1..] + r, w)];
    }
  }

  lemma {:induction false} DelInside(t: Node, p: Path, v: Node, r: Path)
    requires CanPut(t, p) && r != []
    ensures Del(Put(t, p, v), p + r) == Put(t, p, Del(v, r))
  {
    if p == [] {
      assert p + r == r;
    } else {
      assert (p + r)[1..] == p[1..] + r;
      if |p| == 1 {
        assert p[1..] + r == r;
        if Del(v, r) == v {
        }
      } else {
        DelInside(t.entries[p[0]], p[1..], v, r);
      }
    }
  }

  lemma {:induction false} DelPut(t: Node, p: Path, v: Node)
    requires p != [] && CanPut(t, p)
    ensures Del(Put(t, p, v), p) == Del(t, p)
  {
    if |p| == 1 {
      assert Put(t, p, v).entries - {p[0]} == t.entries - {p[0]};
      assert p[0] !in t.entries ==> t.entries - {p[0]} == t.entries;
    } else {
      DelPut(t.entries[p[0]], p[1..], v);
    }
  }

  /** Putting back what is there changes nothing. */
  lemma {:induction false} PutGet(t: Node, p: Path)
    requires Get(t, p).Some?
    ensures CanPut(t, p) && Put(t, p, Get(t, p).value) == t
  {
    if p != [] {
      PutGet(t.entries[p[0]], p[1..]);
    }
  }

  lemma {:induction false} DirPathPut(t: Node, p: Path, v: Node, q: Path)
    requires CanPut(t, p) && DirPath(t, q) && !(p <= q)
    ensures DirPath(Put(t, p, v), q)
  {
    if q != [] && p[0] == q[0] {
      assert p == [p[0]] + p[1..] && q == [q[0]] + q[1..];
      assert |p| > 1;
      DirPathPut(t.entries[p[0]], p[1..], v, q[1..]);
    }
  }

  lemma {:induction false} SafePathPut(t: Node, p: Path, v: Node, q: Path)
    requires CanPut(t, p) && SafePath(t, q) && !(p <= q)
    ensures SafePath(Put(t, p, v), q)
  {
    if q != [] && p[0] == q[0] {
      assert p == [p[0]] + p[1..] && q == [q[0]] + q[1..];
      assert |p| > 1;
      SafePathPut(t.entries[p[0]], p[1..], v, q[1..]);
    }
  }

  lemma {:induction false} SafePathDel(t: Node, p: Path, q: Path)
    requires p != [] && SafePath(t, q)
    ensures SafePath(Del(t, p), q)
  {
    if q != [] && p[0] == q[0] && |p| > 1 && p[0] in t.entries {
      SafePathDel(t.entries[p[0]], p[1..], q[1..]);
    }
  }

  lemma {:induction false} SafeIsDirPath(t: Node, p: Path)
    requires SafePath(t, p)
    ensures DirPath(t, p)
  {
    if p != [] && p[0] in t.entries {
      SafeIsDirPath(t.entries[p[0]], p[1..]);
    }
  }

  lemma {:induction false} DirPathDel(t: Node, p: Path, q: Path)
    requires p != [] && DirPath(t, q)
    ensures DirPath(Del(t, p), q)
  {
    if q != [] && p[0] == q[0] && |p| > 1 && p[0] in t.entries {
      DirPathDel(t.entries[p[0]], p[1..], q[1..]);
    }
  }

  lemma {:induction false} DirPathDown(t: Node, p: Path, r: Path)
    requires DirPath(t, p + r)
    ensures DirPath(t, p)
  {
    if p != [] && p[0] in t.entries {
      assert (p + r)[1..] == p[1..] + r;
      DirPathDown(t.entries[p[0]], p[1..], r);
    }
  }

  /** A directory, or nothing, at the end of a directory path. */
  lemma {:induction false} DirPathHere(t: Node, p: Path)
    requires DirPath(t, p)
    ensures Get(t, p).Some? ==> Get(t, p).value.Dir?
  {
    if p != [] && p[0] in t.entries {
      DirPathHere(t.entries[p[0]], p[1..]);
    }
  }

  /** Below directories only the path itself can be a link. */
  lemma {:induction false} LinkAtTheEnd(t: Node, p: Path)
    requires p != [] && DirPath(t, Parent(p))
    ensures ResolvesToItself(t, p) <==> !IsLink(t, p)
  {
    if p[0] in t.entries {
      if |p| == 1 {
        assert p[1..] == [] && t.Dir?;
        assert Get(t, p) == Get(t.entries[p[0]], []);
      } else {
        assert Parent(p)[1..] == Parent(p[1..]) && Parent(p)[0] == p[0];
        LinkAtTheEnd(t.entries[p[0]], p[1..]);
      }
    }
  }

  lemma {:induction false} DirPathResolves(t: Node, p: Path)
    requires DirPath(t, p)
    ensures ResolvesToItself(t, p)
  {
    if p != [] && p[0] in t.entries {
      DirPathResolves(t.entries[p[0]], p[1..]);
    }
  }

  lemma {:induction false} DirPathExtend(t: Node, p: Path, n: Name)
    requires DirPath(t, p)
    requires Get(t, p + [n]).None? || Get(t, p + [n]).value.Dir?
    ensures DirPath(t, p + [n])
  {
    if p == [] {
      assert p + [n] == [n];
    } else {
      assert (p + [n])[1..] == p[1..] + [n];
      if p[0] in t.entries {
        DirPathExtend(t.entries[p[0]], p[1..], n);
      }
    }
  }

  /** Deleting a node keeps a directory that is neither it nor below it. */
  lemma {:induction false} DeletedElsewhere(t: Node, p: Path, q: Path)
    requires p != [] && IsDir(t, q) && !(p <= q)
    ensures IsDir(Del(t, p), q)
  {
    ApartIffIncomparable(p, q);
    if Apart(p, q) {
      GetDelApart(t, p, q);
    } else {
      assert q <= p;
      assert p == q + p[|q|..];
      GetDelAbove(t, q, p[|q|..]);
    }
  }

  /** Putting a node keeps a directory that is neither it nor below it. */
  lemma IsDirPut(t: Node, p: Path, v: Node, q: Path)
    requires CanPut(t, p) && IsDir(t, q) && !(p <= q)
    ensures IsDir(Put(t, p, v), q)
  {
    ApartIffIncomparable(p, q);
    if Apart(p, q) {
      GetPutApart(t, p, v, q);
    } else {
      assert p == q + p[|q|..];
      GetPutAbove(t, q, p[|q|..], v);
    }
  }

  lemma {:induction false} IsDirMakeDirs(t: Node, p: Path, mode: nat, q: Path)
    requires DirPath(t, p) && IsDir(t, q)
    ensures IsDir(MakeDirs(t, p, mode), q)
    decreases |p|
  {
    if p != [] && q != [] && p[0] == q[0] {
      IsDirMakeDirs(t.entries[p[0]], p[1..], mode, q[1..]);
    }
  }

  lemma {:induction false} SafePathExtend(t: Node, p: Path, n: Name)
    requires SafePath(t, p) && Get(t, p + [n]).None?
    ensures SafePath(t, p + [n])
  {
    if p == [] {
      assert p + [n] == [n];
    } else {
      assert (p + [n])[1..] == p[1..] + [n];
      if p[0] in t.entries {
        SafePathExtend(t.entries[p[0]], p[1..], n);
      }
    }
  }

  lemma {:induction false} MakeDirsResult(t: Node, p: Path, mode: nat)
    requires DirPath(t, p)
    ensures IsDir(MakeDirs(t, p, mode), p)
    ensures IsDir(t, p) ==> MakeDirs(t, p, mode) == t
    decreases |p|
  {
    if p != [] {
      var child := if p[0] in t.entries then t.entries[p[0]] else Dir(mode, map[]);
      MakeDirsResult(child, p[1..], mode);
      if IsDir(t, p) {
        assert t.entries[p[0] := child] == t.entries;
      }
    }
  }

  /** On the way to an existing directory there is nothing to create. */
  lemma {:induction false} MakeDirsExisting(t: Node, p: Path, k: nat, mode: nat)
    requires IsDir(t, p) && k <= |p|
    ensures DirPath(t, p[..k]) && MakeDirs(t, p[..k], mode) == t
    decreases k
  {
    if k > 0 {
      MakeDirsExisting(t.entries[p[0]], p[1..], k - 1, mode);
      assert p[..k][1..] == p[1..][..k - 1];
      assert t.entries[p[0] := t.entries[p[0]]] == t.entries;
    }
  }

  lemma {:induction false} MakeDirsGet(t: Node, p: Path, mode: nat, q: Path)
    requires DirPath(t, p) && !(q <= p)
    ensures Get(MakeDirs(t, p, mode), q) == Get(t, q)
    decreases |p|
  {
    if p != [] && p[0] == q[0] {
      var child := if p[0] in t.entries then t.entries[p[0]] else Dir(mode, map[]);
      assert p == [p[0]] + p[1..] && q == [q[0]] + q[1..];
      assert !(q[1..] <= p[1..]);
      MakeDirsGet(child, p[1..], mode, q[1..]);
    }
  }

  lemma {:induction false} MakeDirsDirPath(t: Node, p: Path, mode: nat, q: Path)
    requires DirPath(t, p) && DirPath(t, q)
    ensures DirPath(MakeDirs(t, p, mode), q)
    decreases |p|
  {
    if p != [] && q != [] && p[0] == q[0] {
      var child := if p[0] in t.entries then t.entries[p[0]] else Dir(mode, map[]);
      assert DirPath(child, q[1..]);
      MakeDirsDirPath(child, p[1..], mode, q[1..]);
    }
  }

  lemma {:induction false} MakeDirsSafePath(t: Node, p: Path, mode: nat, q: Path)
    requires DirPath(t, p) && SafePath(t, q) && !SharedWritable(mode)
    ensures SafePath(MakeDirs(t, p, mode), q)
    decreases |p|
  {
    if p != [] && q != [] && p[0] == q[0] {
      var child := if p[0] in t.entries then t.entries[p[0]] else Dir(mode, map[]);
      assert SafePath(child, q[1..]);
      MakeDirsSafePath(child, p[1..], mode, q[1..]);
    }
  }

  /** Creating the last directory of a path after all the others. */
  lemma {:induction false} MakeDirsSnoc(t: Node, p: Path, n: Name, mode: nat)
    requires DirPath(t, p + [n])
    ensures DirPath(t, p)
    ensures var u := MakeDirs(t, p, mode);
            IsDir(u, p) && CanPut(u, p + [n]) &&
            (Get(u, p + [n]).None? || IsDir(u, p + [n])) &&
            MakeDirs(t, p + [n], mode) ==
              if Get(u, p + [n]).Some? then u else Put(u, p + [n], Dir(mode, map[]))
    decreases |p|
  {
    DirPathDown(t, p, [n]);
    MakeDirsResult(t, p, mode);
    if p == [] {
      assert p + [n] == [n];
      if n in t.entries {
        assert MakeDirs(t, [n], mode).entries == t.entries;
      }
    } else {
      var child := if p[0] in t.entries then t.entries[p[0]] else Dir(mode, map[]);
      assert (p + [n])[1..] == p[1..] + [n];
      MakeDirsSnoc(child, p[1..], n, mode);
    }
  }
}
