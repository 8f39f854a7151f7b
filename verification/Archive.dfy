/** The members of a snapshot archive: which lists of them may be extracted. */
module Archive {
  import opened Base
  import opened FileTree
  import opened Pieces

  datatype MemberType = RegularMember | DirectoryMember | OtherMember

  datatype Member = Member(name: string, kind: MemberType, size: nat)

  const REQUIRED_ROOTS: set<Name> := {"db", "static_files", "metadata.json", "summit_checkpoint"}

  // ---------------------------------------------------------------------
  // Names and paths
  // ---------------------------------------------------------------------

  /** Empty pieces and single dots mean nothing. */
  function Meaningful(segments: seq<string>): (r: seq<string>) {
    if segments == [] then []
    else if segments[0] == "" || segments[0] == "." then Meaningful(segments[1..])
    else [segments[0]] + Meaningful(segments[1..])
  }

  /** `PurePosixPath(name).parts` of a relative name. */
  function Parts(name: string): Path {
    Meaningful(Split(name, '/'))
  }

  predicate IsAbsolute(name: string) {
    name != "" && name[0] == '/'
  }

  /** `str` of a relative path. */
  function Spelled(parts: Path): string {
    Joined(parts, '/')
  }

  predicate PlainNames(parts: Path) {
    forall i :: 0 <= i < |parts| ==> Free(parts[i], '/') && parts[i] != "" && parts[i] != "."
  }

  lemma {:induction false} MeaningfulIsPlain(segments: seq<string>)
    requires AllFree(segments, '/')
    ensures PlainNames(Meaningful(segments))
  {
    if segments != [] {
      MeaningfulIsPlain(segments[1..]);
    }
  }

  lemma PartsArePlain(name: string)
    ensures PlainNames(Parts(name))
  {
    SplitIsFree(name, '/');
    MeaningfulIsPlain(Split(name, '/'));
  }

  lemma {:induction false} MeaningfulConcat(a: seq<string>, b: seq<string>)
    ensures Meaningful(a + b) == Meaningful(a) + Meaningful(b)
  {
    if a == [] {
      assert a + b == b;
    } else {
      assert (a + b)[1..] == a[1..] + b;
      MeaningfulConcat(a[1..], b);
    }
  }

  /** A slash separates, and empty names and single dots add nothing. */
  lemma PartsOfName(first: string, rest: string)
    requires '/' !in first
    ensures Parts(first) == if first == "" || first == "." then [] else [first]
    ensures Parts(first + "/" + rest) == Parts(first) + Parts(rest)
  {
    OnlyPiece(first, '/');
    FirstPiece(first, rest, '/');
    assert first + "/" + rest == first + ['/'] + rest;
    MeaningfulConcat([first], Split(rest, '/'));
  }

  lemma {:induction false} PlainIsMeaningful(parts: Path)
    requires PlainNames(parts)
    ensures Meaningful(parts) == parts
  {
    if parts != [] {
      PlainIsMeaningful(parts[1..]);
      assert parts == [parts[0]] + parts[1..];
    }
  }

  /** A normalized name stands for the same path as the name it came from. */
  lemma NormalizedNameReadsBack(name: string)
    ensures Parts(Spelled(Parts(name))) == Parts(name)
  {
    var parts := Parts(name);
    PartsArePlain(name);
    if parts != [] {
      SplitOfJoined(parts, '/');
      PlainIsMeaningful(parts);
    }
  }

  // ---------------------------------------------------------------------
  // Member lists
  // ---------------------------------------------------------------------

  predicate IsRoot(n: Name) {
    n == "db" || n == "static_files" || n == "metadata.json" || n == "summit_checkpoint"
  }

  /** A file or directory below one of the roots, named by a relative path without `..`. */
  predicate SafeMember(m: Member) {
    && (m.name == "" || m.name[0] != '/') && Parts(m.name) != [] && ".." !in Parts(m.name)
    && IsRoot(Parts(m.name)[0]) && (m.kind.RegularMember? || m.kind.DirectoryMember?)
  }

  predicate DistinctPaths(members: seq<Member>) {
    forall i, j :: 0 <= i < j < |members| ==> Parts(members[i].name) != Parts(members[j].name)
  }

  predicate HasRoot(members: seq<Member>, root: Name) {
    exists i :: 0 <= i < |members| && Parts(members[i].name) != [] &&
                Parts(members[i].name)[0] == root
  }

  function TotalSize(members: seq<Member>): nat {
    if members == [] then 0
    else
      var last := members[|members| - 1];
      TotalSize(members[..|members| - 1]) + if last.kind.RegularMember? then last.size else 0
  }

  /** Every member is safe, no two have the same path, and all four roots are there. */
  ghost predicate Extractable(members: seq<Member>) {
    && (forall i :: 0 <= i < |members| ==> SafeMember(members[i]))
    && DistinctPaths(members)
    && forall root :: IsRoot(root) ==> HasRoot(members, root)
  }

  /** What the loop knows of the members it has seen. */
  ghost predicate Seen(members: seq<Member>, names: set<string>, roots: set<Name>, total: nat) {
    && (forall i :: 0 <= i < |members| ==> SafeMember(members[i]))
    && DistinctPaths(members)
    && (forall i :: 0 <= i < |members| ==> Spelled(Parts(members[i].name)) in names)
    && (forall s :: s in names ==> SpelledIn(members, s))
    && (forall root :: root in roots <==> IsRoot(root) && HasRoot(members, root))
    && total == TotalSize(members)
  }

  predicate SpelledIn(members: seq<Member>, s: string) {
    exists i :: 0 <= i < |members| && s == Spelled(Parts(members[i].name))
  }

  /** `validate_tar_members`: the sum of the file sizes, or nothing. */
  method ValidateTarMembers(members: seq<Member>) returns (r: Option<nat>)
    ensures r.Some? <==> Extractable(members)
    ensures r.Some? ==> r.value == TotalSize(members)
  {
    hide Extractable, Seen, Spelled, Parts, SpelledIn;
    var names: set<string>, totalSize: nat, foundRoots: set<Name> := {}, 0, {};
    NothingSeen();
    for i := 0 to |members|
      invariant Seen(members[..i], names, foundRoots, totalSize)
    {
      var member := members[i];
      var parts := Parts(member.name);
      if IsAbsolute(member.name) || ".." in parts || parts == [] {
        Unsafe(members, i);
        return None;
      }
      var normalized := Spelled(parts);
      if normalized in names {
        Duplicate(members, i, names, foundRoots, totalSize);
        return None;
      }
      names := names + {normalized};
      var root := parts[0];
      if root !in REQUIRED_ROOTS {
        Unsafe(members, i);
        return None;
      }
      OneMore(members, i, names - {normalized}, foundRoots, totalSize) by {
        assert names - {normalized} + {normalized} == names;
        assert normalized !in names - {normalized};
      }
      foundRoots := foundRoots + {root};
      if member.kind.OtherMember? {
        Unsafe(members, i);
        return None;
      }
      if member.kind.RegularMember? {
        totalSize := totalSize + member.size;
      }
    }
    assert members[..|members|] == members;
    AllSeen(members, names, foundRoots, totalSize);
    var missingRoots := REQUIRED_ROOTS - foundRoots;
    return if missingRoots != {} then None else Some(totalSize);
  }

  lemma NothingSeen()
    ensures Seen([], {}, {}, 0)
  {
  }

  lemma Unsafe(members: seq<Member>, i: nat)
    requires i < |members| && !SafeMember(members[i])
    ensures !Extractable(members)
  {
  }

  lemma AllSeen(members: seq<Member>, names: set<string>, roots: set<Name>, total: nat)
    requires Seen(members, names, roots, total)
    ensures Extractable(members) <==> REQUIRED_ROOTS - roots == {}
    ensures total == TotalSize(members)
  {
    hide SafeMember, HasRoot, DistinctPaths, TotalSize, Spelled, SpelledIn;
    assert forall root :: root in REQUIRED_ROOTS <==> IsRoot(root);
    hide REQUIRED_ROOTS, IsRoot;
    forall root | root in REQUIRED_ROOTS && root !in roots
      ensures REQUIRED_ROOTS - roots != {}
    {
      assert root in REQUIRED_ROOTS - roots;
    }
  }

  /** Two spellings with the same normalized name are the same path. */
  lemma Duplicate(members: seq<Member>, i: nat, names: set<string>, roots: set<Name>, total: nat)
    requires i < |members| && Seen(members[..i], names, roots, total)
    requires Spelled(Parts(members[i].name)) in names
    ensures !Extractable(members)
  {
    assert SpelledIn(members[..i], Spelled(Parts(members[i].name)));
    var k :| 0 <= k < i && Spelled(Parts(members[k].name)) == Spelled(Parts(members[i].name));
    NormalizedNameReadsBack(members[k].name);
    NormalizedNameReadsBack(members[i].name);
    assert Parts(members[k].name) == Parts(members[i].name);
  }

  lemma OneMore(members: seq<Member>, i: nat, names: set<string>, roots: set<Name>, total: nat)
    requires i < |members| && Seen(members[..i], names, roots, total)
    requires Spelled(Parts(members[i].name)) !in names
    ensures SafeMember(members[i]) ==>
              Seen(members[..i + 1], names + {Spelled(Parts(members[i].name))},
                   roots + {Parts(members[i].name)[0]},
                   total + if members[i].kind.RegularMember? then members[i].size else 0)
  {
    hide Spelled, Parts, HasRoot, SpelledIn, IsRoot;
    if SafeMember(members[i]) {
      var before, after := members[..i], members[..i + 1];
      assert after[..i] == before && after[i] == members[i];
      assert after == before + [members[i]];
      NewSpelling(before, members[i]);
      NewRoot(before, members[i]);
      var names' := names + {Spelled(Parts(members[i].name))};
      assert forall k :: 0 <= k < i ==> after[k] == before[k];
    }
  }

  lemma NewSpelling(members: seq<Member>, m: Member)
    ensures SpelledIn(members + [m], Spelled(Parts(m.name)))
    ensures forall s :: SpelledIn(members, s) ==> SpelledIn(members + [m], s)
  {
    hide Spelled, Parts;
    var after := members + [m];
    assert after[|members|] == m;
    forall s | SpelledIn(members, s)
      ensures SpelledIn(after, s)
    {
      var k :| 0 <= k < |members| && s == Spelled(Parts(members[k].name));
      assert after[k] == members[k];
    }
  }

  lemma NewRoot(members: seq<Member>, m: Member)
    requires Parts(m.name) != []
    ensures forall root :: HasRoot(members + [m], root) <==>
              HasRoot(members, root) || root == Parts(m.name)[0]
  {
    hide Parts;
    var after := members + [m];
    assert after[|members|] == m;
    forall root
      ensures HasRoot(after, root) <==> HasRoot(members, root) || root == Parts(m.name)[0]
    {
      if HasRoot(members, root) {
        var k :| 0 <= k < |members| && Parts(members[k].name) != [] &&
                 Parts(members[k].name)[0] == root;
        assert after[k] == members[k];
      }
      if HasRoot(after, root) {
        var k :| 0 <= k < |after| && Parts(after[k].name) != [] && Parts(after[k].name)[0] == root;
        assert k < |members| ==> after[k] == members[k];
      }
    }
  }

  /** Where an extractable member goes: strictly below the destination, under a known root. */
  lemma ExtractedBelow(members: seq<Member>, destination: Path, i: nat)
    requires Extractable(members) && i < |members|
    ensures var p := destination + Parts(members[i].name);
            && destination < p && ".." !in p[|destination|..]
            && IsRoot(p[|destination|])
            && forall j :: 0 <= j < |members| && j != i ==>
                 p != destination + Parts(members[j].name)
  {
    assert SafeMember(members[i]);
    var parts := Parts(members[i].name);
    forall j | 0 <= j < |members| && j != i
      ensures destination + parts != destination + Parts(members[j].name)
    {
      var other := Parts(members[j].name);
      assert (destination + other)[|destination|..] == other;
      assert (destination + parts)[|destination|..] == parts;
      assert other != parts;
    }
  }
}
