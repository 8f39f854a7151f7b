/** Path separation, the rule the checkpoint transaction rests on. */
module Fsutil {
  import opened FileTree

  predicate IsRelativeTo(path: Path, parent: Path) {
    parent <= path
  }

  predicate PairwiseApart(paths: seq<Path>) {
    forall i, j :: 0 <= i < j < |paths| ==> Apart(paths[i], paths[j])
  }

  /** Accepts exactly when no path equals or contains another one. */
  method RequireSeparatePaths(paths: seq<Path>) returns (ok: bool)
    ensures ok <==> PairwiseApart(paths)
  {
    for index := 0 to |paths|
      invariant forall i, j :: 0 <= i < index && i < j < |paths| ==> Apart(paths[i], paths[j])
    {
      for other := index + 1 to |paths|
        invariant forall j :: index < j < other ==> Apart(paths[index], paths[j])
      {
        var left, right := paths[index], paths[other];
        ApartIffIncomparable(left, right);
        if left == right || IsRelativeTo(left, right) || IsRelativeTo(right, left) {
          return false;
        }
      }
    }
    return true;
  }

  /**
   A staging directory freshly created beside the Reth data directory overlaps
   a path kept apart from that directory only when the path lies inside the
   stage's own random name, and then the path did not exist.
   */
  lemma FreshStageOverlap(t: Node, reth: Path, name: Name, p: Path)
    requires reth != [] && Apart(reth, p)
    requires Get(t, Parent(reth) + [name]).None?
    ensures Apart(Parent(reth) + [name], p) <==> !(Parent(reth) + [name] <= p)
    ensures !Apart(Parent(reth) + [name], p) ==> Get(t, p).None?
  {
    var stage := Parent(reth) + [name];
    ApartIffIncomparable(stage, p);
    ApartIffIncomparable(reth, p);
    assert !(p <= Parent(reth));
    if stage <= p && Get(t, p).Some? {
      assert p == stage + p[|stage|..];
      Existing(t, stage, p[|stage|..]);
    }
  }

  /** What lies on the way to an existing node exists. */
  lemma {:induction false} Existing(t: Node, p: Path, r: Path)
    requires Get(t, p + r).Some?
    ensures Get(t, p).Some?
  {
    if p != [] {
      assert (p + r)[1..] == p[1..] + r;
      Existing(t.entries[p[0]], p[1..], r);
    }
  }
}
