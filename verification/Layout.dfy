/**
 The places the transaction touches, and the whole filesystem seen through
 them. Every place lies below one of eight separate directories or files, so a
 change at one place leaves every other place alone.
 */
module Layouts {
  import opened Base
  import opened FileTree
  import opened Fsutil

  const LOCK: Name := ".summit-process.lock"

  datatype Place =
    | RethDb | RethStatic | SummitStore | CheckpointDir | StartConfig | Anchor | SummitKeys
    | SavedDb | SavedStatic | SavedSummit | SavedCheckpoint | SavedConfig | SavedAnchor
    | ReceiptFile
    | StagedDb | StagedStatic | StagedCheckpoint

  /** Where each place is. */
  type Places = at: map<Place, Path> | forall p: Place :: p in at
    witness map p: Place | true :: []

  /** What is at each place that exists. */
  type View = map<Place, Node>

  function Bases(live: LivePaths, backup: Path, stage: Path): seq<Path> {
    [live.reth, live.summit, live.keys, live.checkpoint, live.config, live.weak, backup, stage]
  }

  function BaseIndex(p: Place): (i: nat)
    ensures i < 8
  {
    match p
    case RethDb | RethStatic => 0
    case SummitStore => 1
    case SummitKeys => 2
    case CheckpointDir => 3
    case StartConfig => 4
    case Anchor => 5
    case SavedDb | SavedStatic | SavedSummit | SavedCheckpoint | SavedConfig | SavedAnchor => 6
    case ReceiptFile => 6
    case StagedDb | StagedStatic | StagedCheckpoint => 7
  }

  function Suffix(p: Place): Path {
    match p
    case RethDb => ["db"]
    case RethStatic => ["static_files"]
    case SummitStore | SummitKeys | CheckpointDir | StartConfig | Anchor => []
    case SavedDb => ["reth", "db"]
    case SavedStatic => ["reth", "static_files"]
    case SavedSummit => ["summit-data"]
    case SavedCheckpoint => ["previous-checkpoint"]
    case SavedConfig => ["previous-checkpoint-start.toml"]
    case SavedAnchor => ["previous-weak-subjectivity.toml"]
    case ReceiptFile => ["rollback-manifest.json"]
    case StagedDb => ["db"]
    case StagedStatic => ["static_files"]
    case StagedCheckpoint => ["summit_checkpoint"]
  }

  function PlacesOf(live: LivePaths, backup: Path, stage: Path): Places {
    map p: Place | true :: Bases(live, backup, stage)[BaseIndex(p)] + Suffix(p)
  }

  lemma PlaceAt(live: LivePaths, backup: Path, stage: Path, p: Place)
    ensures PlacesOf(live, backup, stage)[p] ==
            Bases(live, backup, stage)[BaseIndex(p)] + Suffix(p)
  {
  }

  predicate Disjoint(at: Places, a: Place, b: Place) {
    at[a] != [] && Apart(at[a], at[b])
  }

  ghost predicate Separate(at: Places) {
    forall a: Place, b: Place :: a != b ==> Disjoint(at, a, b)
  }

  ghost function ViewOf(t: Node, at: Places): View {
    map p: Place | Get(t, at[p]).Some? :: Get(t, at[p]).value
  }

  /** Only their owner may change the directories above the place. */
  predicate SafeAt(t: Node, at: Places, p: Place) {
    at[p] != [] && SafePath(t, Parent(at[p]))
  }

  /** The place whose existence shows that the directories above `p` were found safe. */
  function WitnessOf(p: Place): Option<Place> {
    match p
    case StartConfig => Some(SavedConfig)
    case Anchor => Some(SavedAnchor)
    case ReceiptFile => Some(ReceiptFile)
    case _ => None
  }

  /** Whether something may be put at `a` as far as it is a witness. */
  predicate Supported(t: Node, at: Places, a: Place) {
    match a
    case SavedConfig => SafeAt(t, at, StartConfig)
    case SavedAnchor => SafeAt(t, at, Anchor)
    case ReceiptFile => SafeAt(t, at, ReceiptFile)
    case _ => true
  }

  predicate ClearAt(t: Node, at: Places, p: Place) {
    && at[p] != [] && DirPath(t, Parent(at[p]))
    && (WitnessOf(p).Some? && Get(t, at[WitnessOf(p).value]).Some? ==> SafeAt(t, at, p))
  }

  /**
   No file or link stands where a parent directory of a place is needed, and the
   files that a restoration will write again are known to be safely placed.
   */
  ghost predicate Clear(t: Node, at: Places) {
    forall p: Place :: ClearAt(t, at, p)
  }

  predicate HasDir(v: View, p: Place) {
    p in v && v[p].Dir?
  }

  /** Something that is not a file stands where a file is to be written. */
  predicate NoFileAt(v: View, p: Place) {
    p in v && !v[p].File?
  }

  predicate LinkAt(v: View, p: Place) {
    p in v && v[p].Symlink?
  }

  function WithEntry(d: Node, n: Name, v: Node): Node
    requires d.Dir?
  {
    d.(entries := d.entries[n := v])
  }

  function WithoutEntry(d: Node, n: Name): Node
    requires d.Dir?
  {
    d.(entries := d.entries - {n})
  }

  lemma SuffixesApart(a: Place, b: Place)
    requires a != b && BaseIndex(a) == BaseIndex(b)
    ensures Apart(Suffix(a), Suffix(b))
  {
    assert |"db"| != |"static_files"| && |"db"| != |"summit_checkpoint"|;
    assert Apart(["reth", "db"], ["reth", "static_files"]) by {
      assert ["reth", "db"][1..] == ["db"];
      assert ["reth", "static_files"][1..] == ["static_files"];
    }
    assert |"reth"| == 4;
  }

  lemma AtSeparateBases(bases: seq<Path>, i: nat, j: nat)
    requires PairwiseApart(bases) && |bases| > 1 && i < |bases| && j < |bases|
    ensures bases[i] != [] && (i != j ==> Apart(bases[i], bases[j]))
  {
    if i < j {
      assert Apart(bases[i], bases[j]);
    } else if j < i {
      assert Apart(bases[j], bases[i]);
      ApartSymmetric(bases[i], bases[j]);
    } else {
      var k := if i == 0 then 1 else 0;
      assert if i == 0 then Apart(bases[i], bases[k]) else Apart(bases[k], bases[i]);
    }
  }

  lemma PlacesApart(live: LivePaths, backup: Path, stage: Path, a: Place, b: Place)
    requires PairwiseApart(Bases(live, backup, stage)) && a != b
    ensures var at := PlacesOf(live, backup, stage); at[a] != [] && Apart(at[a], at[b])
  {
    var i, j := BaseIndex(a), BaseIndex(b);
    var bases := Bases(live, backup, stage);
    assert PlacesOf(live, backup, stage)[a] == bases[i] + Suffix(a);
    assert PlacesOf(live, backup, stage)[b] == bases[j] + Suffix(b);
    hide PlacesOf, Suffix, BaseIndex, Bases, Apart;
    AtSeparateBases(bases, i, j);
    if i == j {
      SuffixesApart(a, b);
      ApartSiblings(bases[i], Suffix(a), Suffix(b));
    } else {
      ApartBelow(bases[i], bases[j], Suffix(a), Suffix(b));
    }
  }

  /** Eight separate bases give separate places. */
  lemma SeparateBases(live: LivePaths, backup: Path, stage: Path)
    requires PairwiseApart(Bases(live, backup, stage))
    ensures Separate(PlacesOf(live, backup, stage))
  {
    forall a: Place, b: Place | a != b
      ensures Disjoint(PlacesOf(live, backup, stage), a, b)
    {
      PlacesApart(live, backup, stage, a, b);
    }
  }

  // ---------------------------------------------------------------------
  // Changes at one path, seen from another one
  // ---------------------------------------------------------------------

  lemma NotOnTheWay(p: Path, q: Path, k: nat)
    requires Apart(p, q) && k <= |q|
    ensures !(p <= q[..k])
  {
    ApartIffIncomparable(p, q);
  }

  predicate ParentThere(t: Node, at: Places, p: Place) {
    at[p] != [] && IsDir(t, Parent(at[p]))
  }

  /** A place that had a parent directory, or only safe ones above it, still does. */
  ghost predicate ParentsKept(t: Node, u: Node, at: Places) {
    (forall p: Place :: SafeAt(t, at, p) ==> SafeAt(u, at, p)) &&
    (forall p: Place :: ParentThere(t, at, p) ==> ParentThere(u, at, p))
  }

  lemma ParentsKeptTransitive(t: Node, u: Node, w: Node, at: Places)
    requires ParentsKept(t, u, at) && ParentsKept(u, w, at)
    ensures ParentsKept(t, w, at)
  {
  }

  lemma PutElsewhere(t: Node, p: Path, r: Path, v: Node, q: Path)
    requires Apart(p, q) && CanPut(t, p + r)
    ensures Get(Put(t, p + r, v), q) == Get(t, q)
  {
    ApartBelow(p, q, r, []);
    assert q + [] == q;
    GetPutApart(t, p + r, v, q);
  }

  lemma DelElsewhere(t: Node, p: Path, r: Path, q: Path)
    requires Apart(p, q)
    ensures Get(Del(t, p + r), q) == Get(t, q)
  {
    ApartBelow(p, q, r, []);
    assert q + [] == q;
    GetDelApart(t, p + r, q);
  }

  // ---------------------------------------------------------------------
  // How each change of the tree changes the view
  // ---------------------------------------------------------------------

  lemma ClearParent(t: Node, at: Places, a: Place)
    requires Clear(t, at)
    ensures at[a] != [] && DirPath(t, Parent(at[a]))
  {
    assert ClearAt(t, at, a);
  }

  /** What a witness shows, in a clear tree. */
  lemma ClearSupports(t: Node, at: Places, a: Place)
    requires Clear(t, at) && Get(t, at[a]).Some?
    ensures Supported(t, at, a)
  {
    hide Get, DirPath, SafePath;
    assert ClearAt(t, at, StartConfig) && ClearAt(t, at, Anchor) && ClearAt(t, at, ReceiptFile);
  }

  /** A file with a saved copy, or a receipt, can be written again. */
  lemma ClearIsSafe(t: Node, at: Places, p: Place)
    requires Clear(t, at) && WitnessOf(p).Some? && Get(t, at[WitnessOf(p).value]).Some?
    ensures SafeAt(t, at, p)
  {
    assert ClearAt(t, at, p);
  }

  /** A change at or below one path keeps the directories above that path and separate ones. */
  lemma PutBeside(t: Node, p: Path, r: Path, v: Node, q: Path)
    requires CanPut(t, p + r) && q != [] && DirPath(t, Parent(q)) && (p == q || Apart(p, q))
    ensures DirPath(Put(t, p + r, v), Parent(q))
    ensures SafePath(t, Parent(q)) ==> SafePath(Put(t, p + r, v), Parent(q))
    ensures IsDir(t, Parent(q)) ==> IsDir(Put(t, p + r, v), Parent(q))
  {
    hide Get, DirPath, SafePath, Put, CanPut, Apart, IsDir;
    NotAboveParent(p, r, q);
    DirPathPut(t, p + r, v, Parent(q));
    if SafePath(t, Parent(q)) {
      SafePathPut(t, p + r, v, Parent(q));
    }
    if IsDir(t, Parent(q)) {
      IsDirPut(t, p + r, v, Parent(q));
    }
  }

  lemma PutAtPlace(t: Node, at: Places, a: Place, r: Path, v: Node, b: Place)
    requires Separate(at) && CanPut(t, at[a] + r)
    requires at[b] != [] && DirPath(t, Parent(at[b]))
    ensures DirPath(Put(t, at[a] + r, v), Parent(at[b]))
    ensures SafeAt(t, at, b) ==> SafeAt(Put(t, at[a] + r, v), at, b)
    ensures ParentThere(t, at, b) ==> ParentThere(Put(t, at[a] + r, v), at, b)
    ensures a != b ==> Get(Put(t, at[a] + r, v), at[b]) == Get(t, at[b])
  {
    hide Get, DirPath, SafePath, Put, CanPut, Apart, IsDir, Separate;
    if b != a {
      PlacesSeparate(at, a, b);
      PutElsewhere(t, at[a], r, v, at[b]);
    }
    PutBeside(t, at[a], r, v, at[b]);
  }

  lemma PlacesSeparate(at: Places, a: Place, b: Place)
    requires Separate(at) && a != b
    ensures Apart(at[a], at[b])
  {
    assert Disjoint(at, a, b);
  }

  /** Nothing at or below a separate path lies above another one. */
  lemma NotAboveParent(p: Path, r: Path, q: Path)
    requires q != [] && (p == q || Apart(p, q))
    ensures !(p + r <= Parent(q))
  {
    if p != q {
      ApartBelow(p, q, r, []);
      assert q + [] == q;
      ApartIffIncomparable(p + r, q);
    }
  }

  lemma ClearAfterPut(t: Node, at: Places, a: Place, r: Path, v: Node)
    requires Separate(at) && Clear(t, at) && CanPut(t, at[a] + r)
    requires Get(t, at[a]).Some? || Supported(t, at, a)
    ensures Clear(Put(t, at[a] + r, v), at) && ParentsKept(t, Put(t, at[a] + r, v), at)
  {
    hide Get, DirPath, SafePath, Put, CanPut, Apart;
    if Get(t, at[a]).Some? {
      ClearSupports(t, at, a);
    }
    hide Separate;
    forall b
      ensures ClearAt(Put(t, at[a] + r, v), at, b)
      ensures SafeAt(t, at, b) ==> SafeAt(Put(t, at[a] + r, v), at, b)
      ensures ParentThere(t, at, b) ==> ParentThere(Put(t, at[a] + r, v), at, b)
    {
      ClearParent(t, at, b);
      PutAtPlace(t, at, a, r, v, b);
      if WitnessOf(b).Some? {
        ClearParent(t, at, WitnessOf(b).value);
        PutAtPlace(t, at, a, r, v, WitnessOf(b).value);
        assert ClearAt(t, at, b);
      }
    }
  }

  lemma ClearAfterDel(t: Node, at: Places, a: Place, r: Path)
    requires Separate(at) && Clear(t, at) && at[a] + r != []
    ensures Clear(Del(t, at[a] + r), at) && ParentsKept(t, Del(t, at[a] + r), at)
  {
    hide Get, DirPath, SafePath, Del, Apart;
    var u := Del(t, at[a] + r);
    forall b
      ensures ClearAt(u, at, b) && (SafeAt(t, at, b) ==> SafeAt(u, at, b))
      ensures ParentThere(t, at, b) ==> ParentThere(u, at, b)
    {
      ClearParent(t, at, b);
      if ParentThere(t, at, b) {
        if b != a {
          assert Disjoint(at, a, b);
        }
        NotAboveParent(at[a], r, at[b]);
        DeletedElsewhere(t, at[a] + r, Parent(at[b]));
      }
      DirPathDel(t, at[a] + r, Parent(at[b]));
      if SafeAt(t, at, b) {
        SafePathDel(t, at[a] + r, Parent(at[b]));
      }
      if WitnessOf(b).Some? && Get(u, at[WitnessOf(b).value]).Some? {
        StillThere(t, at, a, r, WitnessOf(b).value);
        assert ClearAt(t, at, b);
      }
    }
  }

  /** A deletion brings nothing into being. */
  lemma StillThere(t: Node, at: Places, a: Place, r: Path, b: Place)
    requires Separate(at) && at[a] + r != [] && Get(Del(t, at[a] + r), at[b]).Some?
    ensures Get(t, at[b]).Some?
  {
    hide Del, Apart;
    if a != b {
      assert Disjoint(at, a, b);
      DelElsewhere(t, at[a], r, at[b]);
    } else if Get(t, at[a]).None? {
      NotBelowNothing(t, at[a], r);
      DelAbsent(t, at[a] + r);
    }
  }

  lemma NotBelowNothing(t: Node, p: Path, r: Path)
    requires Get(t, p).None?
    ensures Get(t, p + r).None?
  {
    if Get(t, p + r).Some? {
      Existing(t, p, r);
    }
  }

  /** The two trees agree at every place but `a`. */
  ghost predicate SameElsewhere(t: Node, u: Node, at: Places, a: Place) {
    forall b: Place :: b != a ==> Get(u, at[b]) == Get(t, at[b])
  }

  lemma ViewLookup(t: Node, at: Places, b: Place)
    ensures b in ViewOf(t, at) <==> Get(t, at[b]).Some?
    ensures b in ViewOf(t, at) ==> ViewOf(t, at)[b] == Get(t, at[b]).value
  {
  }

  predicate SameAt(v: View, w: View, b: Place) {
    (b in v <==> b in w) && (b in v ==> v[b] == w[b])
  }

  lemma ViewsDifferAt(v: View, w: View, a: Place)
    requires forall b: Place :: b != a ==> SameAt(v, w, b)
    ensures a in v ==> v == w[a := v[a]]
    ensures a !in v ==> v == w - {a}
  {
    forall b: Place | b != a
      ensures (b in v <==> b in w) && (b in v ==> v[b] == w[b])
    {
      assert SameAt(v, w, b);
    }
  }

  lemma SameViewElsewhere(t: Node, u: Node, at: Places, a: Place, b: Place)
    requires SameElsewhere(t, u, at, a) && a != b
    ensures SameAt(ViewOf(u, at), ViewOf(t, at), b)
  {
    ViewLookup(u, at, b);
    ViewLookup(t, at, b);
  }

  lemma ViewChangedAt(t: Node, u: Node, at: Places, a: Place)
    requires SameElsewhere(t, u, at, a)
    ensures Get(u, at[a]).Some? ==> ViewOf(u, at) == ViewOf(t, at)[a := Get(u, at[a]).value]
    ensures Get(u, at[a]).None? ==> ViewOf(u, at) == ViewOf(t, at) - {a}
  {
    forall b: Place | b != a
      ensures SameAt(ViewOf(u, at), ViewOf(t, at), b)
    {
      SameViewElsewhere(t, u, at, a, b);
    }
    ViewLookup(u, at, a);
    ViewsDifferAt(ViewOf(u, at), ViewOf(t, at), a);
  }

  lemma PutSameElsewhere(t: Node, at: Places, a: Place, r: Path, v: Node)
    requires Separate(at) && CanPut(t, at[a] + r)
    ensures SameElsewhere(t, Put(t, at[a] + r, v), at, a)
  {
    forall b | b != a
      ensures Get(Put(t, at[a] + r, v), at[b]) == Get(t, at[b])
    {
      assert Disjoint(at, a, b);
      PutElsewhere(t, at[a], r, v, at[b]);
    }
  }

  lemma DelSameElsewhere(t: Node, at: Places, a: Place, r: Path)
    requires Separate(at) && at[a] + r != []
    ensures SameElsewhere(t, Del(t, at[a] + r), at, a)
  {
    forall b | b != a
      ensures Get(Del(t, at[a] + r), at[b]) == Get(t, at[b])
    {
      assert Disjoint(at, a, b);
      DelElsewhere(t, at[a], r, at[b]);
    }
  }

  lemma ViewPut(t: Node, at: Places, a: Place, v: Node)
    requires Separate(at) && CanPut(t, at[a])
    ensures ViewOf(Put(t, at[a], v), at) == ViewOf(t, at)[a := v]
    ensures Clear(t, at) && (Get(t, at[a]).Some? || Supported(t, at, a)) ==>
              Clear(Put(t, at[a], v), at) && ParentsKept(t, Put(t, at[a], v), at)
  {
    GetPutSame(t, at[a], v);
    assert at[a] + [] == at[a];
    PutSameElsewhere(t, at, a, [], v);
    ViewChangedAt(t, Put(t, at[a], v), at, a);
    if Clear(t, at) && (Get(t, at[a]).Some? || Supported(t, at, a)) {
      ClearAfterPut(t, at, a, [], v);
    }
  }

  lemma ViewDel(t: Node, at: Places, a: Place)
    requires Separate(at) && at[a] != []
    ensures ViewOf(Del(t, at[a]), at) == ViewOf(t, at) - {a}
    ensures Clear(t, at) ==> Clear(Del(t, at[a]), at) && ParentsKept(t, Del(t, at[a]), at)
  {
    GetDelSame(t, at[a]);
    assert at[a] + [] == at[a];
    DelSameElsewhere(t, at, a, []);
    ViewChangedAt(t, Del(t, at[a]), at, a);
    if Clear(t, at) {
      ClearAfterDel(t, at, a, []);
    }
  }

  lemma ViewPutChild(t: Node, at: Places, a: Place, n: Name, v: Node)
    requires Separate(at) && HasDir(ViewOf(t, at), a)
    ensures CanPut(t, at[a] + [n])
    ensures ViewOf(Put(t, at[a] + [n], v), at) ==
            ViewOf(t, at)[a := WithEntry(ViewOf(t, at)[a], n, v)]
    ensures Clear(t, at) ==>
              Clear(Put(t, at[a] + [n], v), at) && ParentsKept(t, Put(t, at[a] + [n], v), at)
  {
    CanPutIffParentDir(t, at[a] + [n]);
    assert Parent(at[a] + [n]) == at[a];
    GetPutAbove(t, at[a], [n], v);
    PutSameElsewhere(t, at, a, [n], v);
    ViewChangedAt(t, Put(t, at[a] + [n], v), at, a);
    if Clear(t, at) {
      ClearAfterPut(t, at, a, [n], v);
    }
  }

  lemma ViewDelChild(t: Node, at: Places, a: Place, n: Name)
    requires Separate(at) && HasDir(ViewOf(t, at), a)
    ensures ViewOf(Del(t, at[a] + [n]), at) ==
            ViewOf(t, at)[a := WithoutEntry(ViewOf(t, at)[a], n)]
    ensures Clear(t, at) ==>
              Clear(Del(t, at[a] + [n]), at) && ParentsKept(t, Del(t, at[a] + [n]), at)
  {
    GetDelAbove(t, at[a], [n]);
    DelEntry(ViewOf(t, at)[a], n);
    DelSameElsewhere(t, at, a, [n]);
    ViewChangedAt(t, Del(t, at[a] + [n]), at, a);
    if Clear(t, at) {
      ClearAfterDel(t, at, a, [n]);
    }
  }

  lemma DelEntry(d: Node, n: Name)
    requires d.Dir?
    ensures Del(d, [n]) == WithoutEntry(d, n)
  {
    assert n !in d.entries ==> d.entries - {n} == d.entries;
  }

  lemma MakeDirsElsewhere(t: Node, at: Places, a: Place, k: nat, mode: nat, b: Place)
    requires Separate(at) && k < |at[a]| && DirPath(t, at[a][..k])
    ensures Get(MakeDirs(t, at[a][..k], mode), at[b]) == Get(t, at[b])
  {
    if b != a {
      assert Disjoint(at, b, a);
      NotOnTheWay(at[b], at[a], k);
    }
    MakeDirsGet(t, at[a][..k], mode, at[b]);
  }

  lemma MakeDirsClearAt(t: Node, at: Places, p: Path, mode: nat, b: Place)
    requires DirPath(t, p) && ClearAt(t, at, b) && !SharedWritable(mode)
    requires WitnessOf(b).Some? ==>
               Get(MakeDirs(t, p, mode), at[WitnessOf(b).value]) ==
               Get(t, at[WitnessOf(b).value])
    ensures ClearAt(MakeDirs(t, p, mode), at, b)
  {
    hide Get, MakeDirs, DirPath, SafePath;
    MakeDirsDirPath(t, p, mode, Parent(at[b]));
    if SafeAt(t, at, b) {
      MakeDirsSafePath(t, p, mode, Parent(at[b]));
    }
  }

  /** Creating parents of a place changes nothing at any place. */
  lemma ViewMakeDirs(t: Node, at: Places, a: Place, k: nat, mode: nat)
    requires Separate(at) && k < |at[a]| && DirPath(t, at[a][..k]) && !SharedWritable(mode)
    ensures ViewOf(MakeDirs(t, at[a][..k], mode), at) == ViewOf(t, at)
    ensures ParentsKept(t, MakeDirs(t, at[a][..k], mode), at)
    ensures Clear(t, at) ==> Clear(MakeDirs(t, at[a][..k], mode), at)
  {
    var p := at[a][..k];
    var u := MakeDirs(t, p, mode);
    forall b
      ensures Get(u, at[b]) == Get(t, at[b])
      ensures SafeAt(t, at, b) ==> SafeAt(u, at, b)
      ensures ParentThere(t, at, b) ==> ParentThere(u, at, b)
    {
      MakeDirsElsewhere(t, at, a, k, mode, b);
      if ParentThere(t, at, b) {
        IsDirMakeDirs(t, p, mode, Parent(at[b]));
      }
      if SafeAt(t, at, b) {
        MakeDirsSafePath(t, p, mode, Parent(at[b]));
      }
    }
    hide Get, MakeDirs, DirPath, SafePath;
    if Clear(t, at) {
      forall b
        ensures ClearAt(u, at, b)
      {
        assert ClearAt(t, at, b);
        MakeDirsClearAt(t, at, p, mode, b);
      }
    }
  }

  /** Below a directory at a place, children can be created at once. */
  lemma ChildPlace(t: Node, at: Places, a: Place, n: Name)
    requires Clear(t, at) && HasDir(ViewOf(t, at), a)
    ensures Parent(at[a] + [n]) == at[a] && DirPath(t, at[a])
    ensures Get(t, at[a] + [n]) ==
            if n in ViewOf(t, at)[a].entries then Some(ViewOf(t, at)[a].entries[n]) else None
  {
    var p := at[a];
    ClearParent(t, at, a);
    assert p == Parent(p) + [p[|p| - 1]];
    DirPathExtend(t, Parent(p), p[|p| - 1]);
    GetBelow(t, p, [n]);
  }
}
