/**
 The three gates a checkpoint passes: the check of the staged snapshot, the
 check right before a start, and the check of the runner that starts Summit.
 Each gate, passed, opens the next one.
 */
module Acceptance {
  import opened Base
  import opened FileTree
  import opened Disks
  import opened Fsutil
  import opened Layouts
  import opened CheckpointSpec
  import opened RealPaths
  import opened Decimals
  import opened Install
  import opened Transaction

  /** How contents are encoded in bytes: raw bytes as they are, the rest never as nothing. */
  type Codec = e: Content -> seq<Byte> |
    (forall b :: e(Bytes(b)) == b) && (forall c: Content :: !c.Bytes? ==> e(c) != [])
    witness (c: Content) => if c.Bytes? then c.bytes else [0]

  const CHUNK: nat := 1048576
  const WEAK_SUBJECTIVITY_MAX_AGE_EPOCHS: nat := 5

  datatype Manifest = Manifest(epoch: nat, blockNumber: nat, archiveSize: nat, archiveHash: string)

  // ---------------------------------------------------------------------
  // Reading files
  // ---------------------------------------------------------------------

  function EntriesAt(t: Node, p: Path): map<Name, Node> {
    if IsDir(t, p) then Get(t, p).value.entries else map[]
  }

  predicate IsFile(t: Node, p: Path) {
    Get(t, p).Some? && Get(t, p).value.File?
  }

  function BytesAt(t: Node, p: Path, e: Codec): seq<Byte> {
    if IsFile(t, p) then e(Get(t, p).value.content) else []
  }

  /** `require_directory`; below a link there is nothing to find. */
  predicate Directory(t: Node, p: Path) {
    p != [] && IsDir(t, p)
  }

  /** `require_regular_file`: not a link, and not empty. */
  predicate RegularFile(t: Node, p: Path, e: Codec) {
    p != [] && IsFile(t, p) && BytesAt(t, p, e) != []
  }

  /** What these checks ask of the node at a path. */
  lemma CheckedNodes(t: Node, p: Path, e: Codec)
    ensures Directory(t, p) <==>
            p != [] && match Get(t, p) case Some(Dir(_, _)) => true case _ => false
    ensures RegularFile(t, p, e) <==>
            p != [] && match Get(t, p) case Some(File(c, _)) => e(c) != [] case _ => false
    ensures OwnerFile(t, p, e) <==>
            p != [] &&
            match Get(t, p)
            case Some(File(c, mode)) =>
              e(c) != [] && (mode / 16) % 2 == 0 && (mode / 2) % 2 == 0
            case _ => false
  {
  }

  predicate SecureDir(t: Node, p: Path) {
    IsDir(t, p) && !SharedWritable(Get(t, p).value.mode)
  }

  predicate SecureParents(t: Node, p: Path) {
    forall k :: 0 <= k < |p| ==> SecureDir(t, p[..k])
  }

  /** What `ensure_root_parent` makes sure of is what `require_secure_root_parent` asks for. */
  lemma {:induction false} SafeIsSecure(t: Node, p: Path)
    requires p != [] && Get(t, p).Some?
    ensures SafePath(t, Parent(p)) <==> SecureParents(t, p)
  {
    if |p| == 1 {
      assert Parent(p) == [] && p[..0] == [];
      assert SecureParents(t, p) <==> SecureDir(t, p[..0]);
    } else {
      var child := t.entries[p[0]];
      SafeIsSecure(child, p[1..]);
      assert Parent(p)[1..] == Parent(p[1..]) && Parent(p)[0] == p[0];
      forall k | 0 <= k < |p| - 1
        ensures SecureDir(t, p[..k + 1]) <==> SecureDir(child, p[1..][..k])
      {
        assert p[..k + 1][1..] == p[1..][..k];
      }
      if SecureParents(t, p) {
        assert SecureDir(t, p[..0]);
        forall k | 0 <= k < |p[1..]|
          ensures SecureDir(child, p[1..][..k])
        {
          assert SecureDir(t, p[..k + 1]);
        }
      }
      if SafePath(t, Parent(p)) {
        forall k | 0 <= k < |p|
          ensures SecureDir(t, p[..k])
        {
          if k > 0 {
            assert SecureDir(child, p[1..][..k - 1]);
          }
        }
      }
    }
  }

  /** A regular file only its owner may change. */
  predicate OwnerFile(t: Node, p: Path, e: Codec) {
    RegularFile(t, p, e) && !SharedWritable(Get(t, p).value.mode)
  }

  /** `require_secure_root_parent`: from the parent up to the root. */
  method RequireSecureRootParent(t: Node, p: Path) returns (ok: bool)
    requires p != []
    ensures ok <==> SecureParents(t, p)
  {
    var current := Parent(p);
    assert current == p[..|p| - 1];
    while true
      invariant |current| < |p| && current == p[..|current|]
      invariant forall k :: |current| < k < |p| ==> SecureDir(t, p[..k])
      decreases |current|
    {
      if !IsDir(t, current) || SharedWritable(Get(t, current).value.mode) {
        assert !SecureDir(t, p[..|current|]);
        return false;
      }
      assert SecureDir(t, p[..|current|]);
      if current == [] {
        return true;
      }
      current := Parent(current);
    }
  }

  method RequireRootManagedFile(t: Node, p: Path, e: Codec) returns (ok: bool)
    ensures ok <==> OwnerFile(t, p, e) && SecureParents(t, p)
  {
    if !RegularFile(t, p, e) || SharedWritable(Get(t, p).value.mode) {
      return false;
    }
    ok := RequireSecureRootParent(t, p);
  }

  /** `file.read(CHUNK)` at an offset. */
  function Chunk(file: seq<Byte>, at: nat): (r: seq<Byte>)
    requires at <= |file|
    ensures r == [] <==> at == |file|
  {
    if |file| - at < CHUNK then file[at..] else file[at..at + CHUNK]
  }

  /** `_files_equal`: sizes first, then chunk by chunk. */
  method FilesEqual(left: seq<Byte>, right: seq<Byte>) returns (equal: bool)
    ensures equal <==> left == right
  {
    if |left| != |right| {
      return false;
    }
    var at := 0;
    while true
      invariant at <= |left| && left[..at] == right[..at]
      decreases |left| - at
    {
      var leftChunk, rightChunk := Chunk(left, at), Chunk(right, at);
      if leftChunk != rightChunk {
        return false;
      }
      if leftChunk == [] {
        return true;
      }
      ghost var next := at + |leftChunk|;
      assert left[..next] == left[..at] + leftChunk;
      assert right[..next] == right[..at] + rightChunk;
      at := at + |leftChunk|;
    }
  }

  // ---------------------------------------------------------------------
  // A checkpoint directory with its header history
  // ---------------------------------------------------------------------

  const ARTIFACTS: seq<Name> := ["checkpoint", "last_block", "finalized_header"]
  const HEADERS: Name := "finalized_headers"
  const TERMINAL: Name := "finalized_header"

  predicate HasArtifacts(t: Node, dir: Path, e: Codec) {
    Directory(t, dir) && RegularFile(t, dir + ["checkpoint"], e) &&
    RegularFile(t, dir + ["last_block"], e) && RegularFile(t, dir + ["finalized_header"], e)
  }

  /** The decimal name of an epoch up to the last one. */
  ghost predicate NameUpTo(n: Name, epoch: nat) {
    exists i: nat :: i <= epoch && n == Decimal(i)
  }

  ghost predicate NamesUpTo(names: set<Name>, epoch: nat) {
    forall n :: n in names <==> NameUpTo(n, epoch)
  }

  /** The history holds one header for each epoch up to the last one, and nothing else. */
  ghost predicate HeadersUpTo(t: Node, headers: Path, epoch: nat, e: Codec) {
    Directory(t, headers) && NamesUpTo(EntriesAt(t, headers).Keys, epoch) &&
    forall n :: n in EntriesAt(t, headers) ==> RegularFile(t, headers + [n], e)
  }

  /** The checkpoint has its artifacts and a history that ends in its own header. */
  ghost predicate History(t: Node, dir: Path, epoch: nat, e: Codec) {
    && HasArtifacts(t, dir, e)
    && HeadersUpTo(t, dir + ["finalized_headers"], epoch, e)
    && BytesAt(t, dir + ["finalized_header"], e) ==
         BytesAt(t, dir + ["finalized_headers"] + [Decimal(epoch)], e)
  }

  predicate HeaderFile(t: Node, headers: Path, n: Name, e: Codec) {
    RegularFile(t, headers + [n], e) && Canonical(n)
  }

  method RequireArtifacts(t: Node, dir: Path, e: Codec) returns (ok: bool)
    ensures ok <==> HasArtifacts(t, dir, e)
  {
    hide RegularFile;
    if !Directory(t, dir) {
      return false;
    }
    for i := 0 to |ARTIFACTS|
      invariant forall k :: 0 <= k < i ==> RegularFile(t, dir + [ARTIFACTS[k]], e)
    {
      if !RegularFile(t, dir + [ARTIFACTS[i]], e) {
        assert i == 0 || i == 1 || i == 2;
        return false;
      }
    }
    assert RegularFile(t, dir + [ARTIFACTS[0]], e) && RegularFile(t, dir + [ARTIFACTS[1]], e);
    assert RegularFile(t, dir + [ARTIFACTS[2]], e);
    return true;
  }

  /** The epochs of a header directory, in whatever order it lists them, then sorted. */
  method ReadHeaders(t: Node, headers: Path, e: Codec) returns (r: Option<seq<nat>>)
    ensures r.Some? <==>
            Directory(t, headers) &&
            forall n :: n in EntriesAt(t, headers) ==> HeaderFile(t, headers, n, e)
    ensures r.Some? ==>
              Increasing(r.value) &&
              forall x: nat :: x in r.value <==> Decimal(x) in EntriesAt(t, headers)
  {
    hide RegularFile, Canonical, Decimal, EntriesAt, Directory, Distinct, Increasing;
    if !Directory(t, headers) {
      return None;
    }
    var names := EntriesAt(t, headers).Keys;
    var todo := names;
    NoneTwice();
    var epochs: seq<nat> := [];
    while todo != {}
      invariant todo <= names && Distinct(epochs)
      invariant forall n :: n in names - todo ==> HeaderFile(t, headers, n, e)
      invariant forall x: nat :: x in epochs <==> Decimal(x) in names - todo
      decreases |todo|
    {
      var name :| name in todo;
      if !HeaderFile(t, headers, name, e) {
        return None;
      }
      ghost var done := names - todo;
      var epoch := EpochOf(name);
      DecimalOf(name, epochs, done);
      DistinctMore(epochs, epoch);
      epochs := epochs + [epoch];
      todo := todo - {name};
      assert names - todo == done + {name};
    }
    assert names - todo == names;
    return Some(Sorted(epochs));
  }

  lemma DecimalOf(name: Name, epochs: seq<nat>, done: set<Name>)
    requires Canonical(name) && name !in done
    requires forall x: nat :: x in epochs <==> Decimal(x) in done
    ensures EpochOf(name) !in epochs
    ensures forall x: nat :: x in epochs + [EpochOf(name)] <==> Decimal(x) in done + {name}
  {
    hide Decimal, Canonical;
    NameOfEpoch(name);
    forall x: nat
      ensures x in epochs + [EpochOf(name)] <==> Decimal(x) in done + {name}
    {
      if Decimal(x) == name {
        DecimalInjective(x, EpochOf(name));
      }
    }
  }

  /** The sorted epochs count from zero exactly when the names are the right ones. */
  lemma NamesMatch(names: set<Name>, epochs: seq<nat>, epoch: nat)
    requires forall n :: n in names ==> Canonical(n)
    requires Increasing(epochs) && forall x: nat :: x in epochs <==> Decimal(x) in names
    ensures NamesUpTo(names, epoch) <==> CountsUp(epochs) && |epochs| == epoch + 1
  {
    CountsUpIff(epochs, epoch + 1);
    hide Decimal, Canonical;
    if NamesUpTo(names, epoch) {
      forall x: nat
        ensures x in epochs <==> x < epoch + 1
      {
        EpochUpTo(x, epoch);
      }
    }
    if forall x: nat :: x in epochs <==> x < epoch + 1 {
      forall n
        ensures n in names <==> NameUpTo(n, epoch)
      {
        if n in names {
          NameOfEpoch(n);
          assert EpochOf(n) in epochs;
        }
        if NameUpTo(n, epoch) {
          var i: nat :| i <= epoch && n == Decimal(i);
          assert i in epochs;
        }
      }
    }
  }

  lemma EpochUpTo(x: nat, epoch: nat)
    ensures NameUpTo(Decimal(x), epoch) <==> x <= epoch
  {
    hide Decimal;
    if i: nat :| i <= epoch && Decimal(x) == Decimal(i) {
      DecimalInjective(x, i);
    }
  }

  lemma CanonicalNames(names: set<Name>, epoch: nat)
    requires NamesUpTo(names, epoch)
    ensures forall n :: n in names ==> Canonical(n)
  {
    forall n | n in names
      ensures Canonical(n)
    {
      var i: nat :| i <= epoch && n == Decimal(i);
      DecimalRoundTrip(i);
    }
  }

  /**
   The header checks shared by the staged and the installed checkpoint. With an
   expected epoch, that epoch must be the last one; without, any last epoch will do.
   */
  method CheckHistory(t: Node, dir: Path, expected: Option<nat>, e: Codec)
    returns (r: Option<nat>)
    ensures r.Some? ==> History(t, dir, r.value, e) && (expected.Some? ==> r == expected)
    ensures r.None? ==> forall epoch ::
              (expected.Some? ==> expected.value == epoch) ==> !History(t, dir, epoch, e)
  {
    hide HasArtifacts, HeadersUpTo, BytesAt, HeaderFile, Increasing, CountsUp, Decimal;
    var ok := RequireArtifacts(t, dir, e);
    if !ok {
      return None;
    }
    var epochs := ReadHeaders(t, dir + [HEADERS], e);
    forall epoch: nat
      ensures HeadersUpTo(t, dir + [HEADERS], epoch, e) <==> LastIs(epochs, epoch)
    {
      HeadersMatch(t, dir + [HEADERS], epochs, epoch, e);
    }
    if epochs.None? {
      return None;
    }
    if expected.Some? && |epochs.value| != expected.value + 1 {
      return None;
    }
    if epochs.value == [] || !CountsUp(epochs.value) {
      return None;
    }
    var last := epochs.value[|epochs.value| - 1];
    LastCounted(epochs.value);
    var equal := FilesEqual(BytesAt(t, dir + [TERMINAL], e),
                            BytesAt(t, dir + [HEADERS] + [Decimal(last)], e));
    return if equal then Some(last) else None;
  }

  /** The epochs were read and count up to this one. */
  predicate LastIs(epochs: Option<seq<nat>>, epoch: nat) {
    epochs.Some? && CountsUp(epochs.value) && |epochs.value| == epoch + 1
  }

  lemma LastCounted(epochs: seq<nat>)
    requires CountsUp(epochs) && epochs != []
    ensures epochs[|epochs| - 1] == |epochs| - 1
  {
  }

  lemma HeadersMatch(t: Node, headers: Path, epochs: Option<seq<nat>>, epoch: nat, e: Codec)
    requires epochs.Some? <==>
             Directory(t, headers) &&
             forall n :: n in EntriesAt(t, headers) ==> HeaderFile(t, headers, n, e)
    requires epochs.Some? ==>
               Increasing(epochs.value) &&
               forall x: nat :: x in epochs.value <==> Decimal(x) in EntriesAt(t, headers)
    ensures HeadersUpTo(t, headers, epoch, e) <==> LastIs(epochs, epoch)
  {
    hide Directory, EntriesAt, RegularFile, Canonical, Increasing, CountsUp, Decimal, NamesUpTo;
    var names := EntriesAt(t, headers).Keys;
    if NamesUpTo(names, epoch) {
      CanonicalNames(names, epoch);
    }
    if epochs.Some? {
      NamesMatch(names, epochs.value, epoch);
    }
  }

  /** A history has one last epoch. */
  lemma LastEpochIsUnique(t: Node, dir: Path, x: nat, y: nat, e: Codec)
    requires History(t, dir, x, e) && History(t, dir, y, e)
    ensures x == y
  {
    var names := EntriesAt(t, dir + [HEADERS]).Keys;
    assert Decimal(x) in names && Decimal(y) in names;
    var i: nat :| i <= y && Decimal(x) == Decimal(i);
    var j: nat :| j <= x && Decimal(y) == Decimal(j);
    DecimalInjective(x, i);
    DecimalInjective(y, j);
  }

  // ---------------------------------------------------------------------
  // The staged snapshot
  // ---------------------------------------------------------------------

  predicate MetadataMatches(c: Content, m: Manifest) {
    c.MetadataJson? && c.snapshotEpoch == m.epoch && c.timestamp != "" &&
    c.blockNumber == m.blockNumber
  }

  ghost predicate SnapshotAccepted(t: Node, stage: Path, m: Manifest, e: Codec) {
    && Directory(t, stage + ["db"]) && RegularFile(t, stage + ["db", "mdbx.dat"], e)
    && Directory(t, stage + ["static_files"])
    && History(t, stage + ["summit_checkpoint"], m.epoch, e)
    && RegularFile(t, stage + ["metadata.json"], e)
    && match Get(t, stage + ["metadata.json"]).value.content
       case MetadataJson(snapshotEpoch, blockNumber, timestamp) =>
         snapshotEpoch == m.epoch && blockNumber == m.blockNumber && timestamp != ""
       case _ => false
  }

  /** `validate_extracted_snapshot`. */
  method ValidateExtractedSnapshot(t: Node, stage: Path, m: Manifest, e: Codec)
    returns (ok: bool)
    ensures ok <==> SnapshotAccepted(t, stage, m, e)
  {
    hide History, Directory;
    if !Directory(t, stage + ["db"]) || !RegularFile(t, stage + ["db", "mdbx.dat"], e) {
      return false;
    }
    if !Directory(t, stage + ["static_files"]) {
      return false;
    }
    var last := CheckHistory(t, stage + ["summit_checkpoint"], Some(m.epoch), e);
    if last.None? {
      return false;
    }
    return RegularFile(t, stage + ["metadata.json"], e) &&
      MetadataMatches(Get(t, stage + ["metadata.json"]).value.content, m);
  }

  // ---------------------------------------------------------------------
  // The anchor
  // ---------------------------------------------------------------------

  predicate HexDigit(c: char) {
    '0' <= c <= '9' || 'a' <= c <= 'f' || 'A' <= c <= 'F'
  }

  predicate IsDigest(s: string) {
    |s| == 66 && s[..2] == "0x" && forall i :: 2 <= i < |s| ==> HexDigit(s[i])
  }

  /** An anchor is neither newer than the checkpoint nor too old for it. */
  predicate RecentAnchor(c: Content, epoch: nat) {
    c.AnchorToml? && DigestText(c.headerDigest) && c.epoch <= epoch <= c.epoch + 5
  }

  /** `0x` and 64 hexadecimal digits of either case. */
  predicate DigestText(s: string) {
    |s| == 66 && s[0] == '0' && s[1] == 'x' &&
    forall i :: 2 <= i < 66 ==>
      '0' <= s[i] <= '9' || 'a' <= s[i] <= 'f' || 'A' <= s[i] <= 'F'
  }

  lemma DigestIsText(s: string)
    ensures IsDigest(s) <==> DigestText(s)
  {
    if |s| >= 2 {
      assert s[..2] == [s[0], s[1]];
    }
  }

  ghost predicate AnchorAccepted(t: Node, p: Path, epoch: nat, e: Codec) {
    OwnerFile(t, p, e) && SecureParents(t, p) && RecentAnchor(Get(t, p).value.content, epoch)
  }

  /** `load_weak_subjectivity`. */
  method LoadWeakSubjectivity(t: Node, p: Path, epoch: nat, e: Codec)
    returns (r: Option<Content>)
    ensures r.Some? <==> AnchorAccepted(t, p, epoch, e)
    ensures r.Some? ==> IsFile(t, p) && r.value == Get(t, p).value.content
  {
    var ok := RequireRootManagedFile(t, p, e);
    if !ok {
      return None;
    }
    var c := Get(t, p).value.content;
    if c.AnchorToml? {
      DigestIsText(c.headerDigest);
    }
    if !c.AnchorToml? || !IsDigest(c.headerDigest) || c.epoch > epoch {
      return None;
    }
    if epoch - c.epoch > WEAK_SUBJECTIVITY_MAX_AGE_EPOCHS {
      return None;
    }
    return Some(c);
  }

  // ---------------------------------------------------------------------
  // The check before a start
  // ---------------------------------------------------------------------

  ghost predicate StartAccepted(t: Node, config: Path, epoch: nat, e: Codec) {
    && OwnerFile(t, config, e) && SecureParents(t, config)
    && var c := Get(t, config).value.content;
      c.StartConfigToml? && History(t, c.checkpointPath, epoch, e) &&
      AnchorAccepted(t, c.weakPath, epoch, e)
  }

  /** `validate_checkpoint_start_configuration`: the terminal epoch it finds. */
  method ValidateStartConfiguration(t: Node, config: Path, e: Codec) returns (r: Option<nat>)
    ensures r.Some? ==> StartAccepted(t, config, r.value, e)
    ensures r.None? ==> forall epoch :: !StartAccepted(t, config, epoch, e)
  {
    hide History, AnchorAccepted, OwnerFile, SecureParents;
    var ok := RequireRootManagedFile(t, config, e);
    if !ok {
      return None;
    }
    OwnerFileIsFile(t, config, e);
    var c := Get(t, config).value.content;
    if !c.StartConfigToml? {
      return None;
    }
    var last := CheckHistory(t, c.checkpointPath, None, e);
    if last.None? {
      return None;
    }
    forall epoch | History(t, c.checkpointPath, epoch, e)
      ensures epoch == last.value
    {
      LastEpochIsUnique(t, c.checkpointPath, epoch, last.value, e);
    }
    var anchor := LoadWeakSubjectivity(t, c.weakPath, last.value, e);
    return if anchor.Some? then last else None;
  }

  lemma OwnerFileIsFile(t: Node, p: Path, e: Codec)
    requires OwnerFile(t, p, e)
    ensures IsFile(t, p)
  {
  }

  // ---------------------------------------------------------------------
  // The runner
  // ---------------------------------------------------------------------

  predicate UsableHeader(t: Node, headers: Path, n: Name, e: Codec) {
    AllDigits(n) && RegularFile(t, headers + [n], e)
  }

  /** A regular file whose name consists of digits. */
  predicate HasUsableHeader(t: Node, headers: Path, e: Codec) {
    exists n :: n in EntriesAt(t, headers) && RegularFile(t, headers + [n], e) && n != "" &&
                forall i :: 0 <= i < |n| ==> '0' <= n[i] <= '9'
  }

  lemma UsableHeaders(t: Node, headers: Path, e: Codec)
    ensures HasUsableHeader(t, headers, e) <==>
            exists n :: n in EntriesAt(t, headers) && UsableHeader(t, headers, n, e)
  {
    hide EntriesAt, RegularFile;
    if HasUsableHeader(t, headers, e) {
      var n :| n in EntriesAt(t, headers) && RegularFile(t, headers + [n], e) && n != "" &&
               forall i :: 0 <= i < |n| ==> '0' <= n[i] <= '9';
      assert UsableHeader(t, headers, n, e);
    }
  }

  ghost predicate RunnerAccepts(t: Node, config: Path, e: Codec) {
    && OwnerFile(t, config, e)
    && var c := Get(t, config).value.content;
      && c.StartConfigToml?
      && HasArtifacts(t, c.checkpointPath, e)
      && Directory(t, c.checkpointPath + ["finalized_headers"])
      && HasUsableHeader(t, c.checkpointPath + ["finalized_headers"], e)
      && OwnerFile(t, c.weakPath, e)
  }

  /** The runner's checks, in `main`'s order: config, checkpoint, anchor file. */
  method CheckRunner(t: Node, config: Path, e: Codec) returns (ok: bool)
    ensures ok <==> RunnerAccepts(t, config, e)
  {
    hide HasUsableHeader, UsableHeader, RegularFile, EntriesAt, Directory, HasArtifacts;
    if !OwnerFile(t, config, e) {
      return false;
    }
    OwnerFileIsFile(t, config, e);
    if !Get(t, config).value.content.StartConfigToml? {
      return false;
    }
    var c := Get(t, config).value.content;
    ok := RequireArtifacts(t, c.checkpointPath, e);
    var headers := c.checkpointPath + [HEADERS];
    if !ok || !Directory(t, headers) {
      return false;
    }
    UsableHeaders(t, headers, e);
    var names := EntriesAt(t, headers).Keys;
    var todo, usableHeaderFound := names, false;
    while todo != {} && !usableHeaderFound
      invariant todo <= names
      invariant usableHeaderFound <==>
                exists n :: n in names - todo && UsableHeader(t, headers, n, e)
      decreases |todo|
    {
      var name :| name in todo;
      todo := todo - {name};
      if UsableHeader(t, headers, name, e) {
        usableHeaderFound := true;
      }
    }
    return usableHeaderFound && OwnerFile(t, c.weakPath, e);
  }

  // ---------------------------------------------------------------------
  // From one gate to the next
  // ---------------------------------------------------------------------

  /** What the start check accepts, the runner accepts. */
  lemma RunnerFollowsStart(t: Node, config: Path, epoch: nat, e: Codec)
    requires StartAccepted(t, config, epoch, e)
    ensures RunnerAccepts(t, config, e)
  {
    var dir := Get(t, config).value.content.checkpointPath;
    DecimalRoundTrip(epoch);
    assert Decimal(epoch) in EntriesAt(t, dir + [HEADERS]);
    UsableHeaders(t, dir + [HEADERS], e);
    assert UsableHeader(t, dir + [HEADERS], Decimal(epoch), e);
  }

  lemma SameBelow(t: Node, p: Path, u: Node, q: Path, r: Path)
    requires Get(t, p).Some? && Get(u, q) == Get(t, p)
    ensures Get(t, p + r) == Get(u, q + r)
  {
    GetBelow(t, p, r);
    GetBelow(u, q, r);
  }

  lemma SameFile(t: Node, p: Path, u: Node, q: Path, e: Codec)
    requires p != [] && q != [] && Get(u, q) == Get(t, p)
    ensures RegularFile(u, q, e) == RegularFile(t, p, e)
    ensures BytesAt(u, q, e) == BytesAt(t, p, e)
    ensures Directory(u, q) == Directory(t, p) && EntriesAt(u, q) == EntriesAt(t, p)
  {
  }

  /** Every check of a node below `p` has the same outcome below `q`. */
  lemma SameChecks(t: Node, p: Path, u: Node, q: Path, r: Path, e: Codec)
    requires p != [] && q != [] && Get(t, p).Some? && Get(u, q) == Get(t, p)
    ensures RegularFile(u, q + r, e) == RegularFile(t, p + r, e)
    ensures BytesAt(u, q + r, e) == BytesAt(t, p + r, e)
    ensures Directory(u, q + r) == Directory(t, p + r)
    ensures EntriesAt(u, q + r) == EntriesAt(t, p + r)
  {
    SameBelow(t, p, u, q, r);
    SameFile(t, p + r, u, q + r, e);
  }

  /** The checks only look below the directory they are given. */
  lemma HistoryMoves(t: Node, p: Path, u: Node, q: Path, epoch: nat, e: Codec)
    requires p != [] && q != [] && Get(t, p).Some? && Get(u, q) == Get(t, p)
    ensures History(t, p, epoch, e) <==> History(u, q, epoch, e)
  {
    hide Decimal, NamesUpTo, RegularFile, BytesAt, Directory, EntriesAt, Get;
    SameFile(t, p, u, q, e);
    forall n: Name
      ensures RegularFile(u, q + [n], e) == RegularFile(t, p + [n], e)
      ensures BytesAt(u, q + [n], e) == BytesAt(t, p + [n], e)
    {
      SameChecks(t, p, u, q, [n], e);
    }
    SameChecks(t, p, u, q, [HEADERS], e);
    forall n: Name
      ensures RegularFile(u, q + [HEADERS] + [n], e) == RegularFile(t, p + [HEADERS] + [n], e)
      ensures BytesAt(u, q + [HEADERS] + [n], e) == BytesAt(t, p + [HEADERS] + [n], e)
    {
      assert p + [HEADERS] + [n] == p + ([HEADERS] + [n]);
      assert q + [HEADERS] + [n] == q + ([HEADERS] + [n]);
      SameChecks(t, p, u, q, [HEADERS] + [n], e);
    }
  }

  /** An accepted snapshot is ready to be installed. */
  lemma AcceptedIsReady(t: Node, live: LivePaths, backup: Path, stage: Path, m: Manifest, e: Codec)
    requires SnapshotAccepted(t, stage, m, e)
    ensures StagedReady(ViewOf(t, PlacesOf(live, backup, stage)))
  {
    hide ViewOf, PlacesOf, Get, SnapshotAccepted, Suffix, BaseIndex, Bases;
    SnapshotHasHistory(t, stage, m, e);
    var at := PlacesOf(live, backup, stage);
    PlacePaths(live, backup, stage);
    ViewLookup(t, at, StagedDb);
    ViewLookup(t, at, StagedStatic);
    ViewLookup(t, at, StagedCheckpoint);
  }

  /**
   An accepted and installed checkpoint passes the check before a start, with
   the manifest's epoch as its last one.
   */
  lemma InstalledCheckpointStarts(t: Node, u: Node, live: LivePaths, backup: Path, stage: Path,
                                  anchor: Content, m: Manifest, e: Codec)
    requires SnapshotAccepted(t, stage, m, e) && RecentAnchor(anchor, m.epoch)
    requires live.checkpoint != []
    requires var at := PlacesOf(live, backup, stage);
             NewStateInstalled(ViewOf(u, at), ViewOf(t, at), live, anchor) && SafeInputs(u, at)
    ensures StartAccepted(u, live.config, m.epoch, e)
  {
    hide SecureParents, SnapshotAccepted, History, NewStateInstalled, ViewOf, PlacesOf, Get,
         SafePath;
    InstalledIsAtPaths(t, u, live, backup, stage, anchor);
    LivePlacePaths(live, backup, stage);
    assert live.config + [] == live.config && live.weak + [] == live.weak;
    SafeIsSecure(u, live.config);
    SafeIsSecure(u, live.weak);
    SnapshotHasHistory(t, stage, m, e);
    HistoryMoves(t, stage + ["summit_checkpoint"], u, live.checkpoint, m.epoch, e);
    assert !SharedWritable(PUBLIC_FILE);
  }

  lemma SnapshotHasHistory(t: Node, stage: Path, m: Manifest, e: Codec)
    requires SnapshotAccepted(t, stage, m, e)
    ensures History(t, stage + ["summit_checkpoint"], m.epoch, e)
    ensures IsDir(t, stage + ["db"]) && IsDir(t, stage + ["static_files"])
    ensures IsDir(t, stage + ["summit_checkpoint"])
  {
  }

  /** A file at this path is not where it was when it is read again: its tree has moved. */
  predicate MovesAway(at: Places, source: Path) {
    || at[RethDb] <= source || at[RethStatic] <= source || at[CheckpointDir] <= source
    || (at[SummitStore] <= source && source != at[SummitStore] + [LOCK])
    || at[StagedDb] <= source || at[StagedStatic] <= source || at[StagedCheckpoint] <= source
  }

  lemma MovesAwayIsAtPaths(live: LivePaths, backup: Path, stage: Path, source: Path)
    ensures MovesAway(PlacesOf(live, backup, stage), source) <==> BelowMoved(live, stage, source)
  {
    hide PlacesOf;
    PlacePaths(live, backup, stage);
  }

  /**
   `install_checkpoint` with its acceptance checks: nothing is touched unless
   the snapshot and the anchor are accepted, and what a completed installation
   leaves is what the check before a start accepts. The anchor is read again
   after the trees have moved, and from below one of them anything may be read.
   */
  method InstallAccepted(d: Disk, live: LivePaths, backupRoot: Path, name: Name, stage: Path,
                         weakSource: Path, role: string, m: Manifest, hostname: string,
                         e: Codec, crash: bool, restoreBudget: Budget)
    returns (end: InstallEnd, receipt: Option<Receipt>)
    requires forall p :: p in ProtectedPaths(live, backupRoot) ==> Apart(p, stage)
    requires Clear(d.root, PlacesOf(live, backupRoot + [name], stage))
    modifies d
    ensures var at := PlacesOf(live, backupRoot + [name], stage);
            InstallPromise(ViewOf(old(d.root), at), ViewOf(d.root, at), end, receipt)
    ensures var accepted := SnapshotAccepted(old(d.root), stage, m, e) &&
                            AnchorAccepted(old(d.root), weakSource, m.epoch, e);
            var at := PlacesOf(live, backupRoot + [name], stage);
            && (!accepted ==> end.Refusal? && d.root == old(d.root))
            && (accepted && old(d.budget).Unlimited? &&
                PairwiseApart(ProtectedPaths(live, backupRoot)) &&
                TargetsAtPaths(old(d.root), live) &&
                SafePath(old(d.root), Parent(live.config)) &&
                SafePath(old(d.root), Parent(live.weak)) &&
                UsableRoot(old(d.root), backupRoot) && !BelowMoved(live, stage, weakSource) &&
                Get(old(d.root), backupRoot + [name]).None?
                ==> end.Completed?)
    ensures if receipt.Some? then
              HonestAtPaths(old(d.root), d.root, live, backupRoot + [name], receipt.value)
            else RestoredAtPaths(old(d.root), d.root, live)
    ensures end.Completed? && !BelowMoved(live, stage, weakSource) ==>
              && IsFile(old(d.root), weakSource)
              && InstalledAtPaths(old(d.root), d.root, live, stage,
                                  Get(old(d.root), weakSource).value.content)
              && StartAccepted(d.root, live.config, m.epoch, e)
              && RunnerAccepts(d.root, live.config, e)
  {
    hide ViewOf, PlacesOf, Get, SnapshotAccepted, AnchorAccepted, StartAccepted, SecureParents,
         SafeInputs, UsableRoot, RunnerAccepts, IsFile, RecentAnchor, InstallPromise,
         NewStateInstalled, StagedReady, Clear, PairwiseApart,
         TargetsAtPaths, InstalledAtPaths, HonestAtPaths, RestoredAtPaths, SafePath, Apart,
         ProtectedPaths, MovesAway, BelowMoved, Lockable;
    ghost var t := d.root;
    var backup := backupRoot + [name];
    var at := PlacesOf(live, backup, stage);
    PromiseUnchanged(ViewOf(t, at), Refusal);
    UnchangedIsAtPaths(t, t, live, backup, stage);
    MovesAwayIsAtPaths(live, backup, stage, weakSource);
    var anchor := LoadWeakSubjectivity(d.root, weakSource, m.epoch, e);
    var ok := ValidateExtractedSnapshot(d.root, stage, m, e);
    if anchor.None? || !ok {
      return Refusal, None;
    }
    AcceptedIsReady(t, live, backup, stage, m, e);
    var readAgain := anchor;
    if MovesAway(at, weakSource) {
      readAgain := *;
    }
    end, receipt := InstallCheckpoint(d, live, backupRoot, name, stage, role, m.epoch, hostname,
                                      readAgain, crash, restoreBudget);
    if end.Completed? && !MovesAway(at, weakSource) {
      CompletedHasReceipt(ViewOf(t, at), ViewOf(d.root, at), end, receipt);
      CompletedStarts(t, d.root, live, backupRoot, name, stage, weakSource, anchor.value, m, e);
    }
  }

  lemma CompletedHasReceipt(o: View, v: View, end: InstallEnd, receipt: Option<Receipt>)
    requires InstallPromise(o, v, end, receipt) && end.Completed?
    ensures receipt.Some?
  {
  }

  /** A completed installation of accepted inputs passes both later gates. */
  lemma CompletedStarts(t: Node, u: Node, live: LivePaths, backupRoot: Path, name: Name,
                        stage: Path, weakSource: Path, anchor: Content, m: Manifest, e: Codec)
    requires SnapshotAccepted(t, stage, m, e) && AnchorAccepted(t, weakSource, m.epoch, e)
    requires IsFile(t, weakSource) && anchor == Get(t, weakSource).value.content
    requires PairwiseApart(ProtectedPaths(live, backupRoot))
    requires var at := PlacesOf(live, backupRoot + [name], stage);
             NewStateInstalled(ViewOf(u, at), ViewOf(t, at), live, anchor) && SafeInputs(u, at)
    ensures StartAccepted(u, live.config, m.epoch, e) && RunnerAccepts(u, live.config, e)
  {
    hide SnapshotAccepted, AnchorAccepted, StartAccepted, RunnerAccepts, NewStateInstalled,
         SafeInputs, ViewOf, PlacesOf, PairwiseApart, RecentAnchor, Get;
    AcceptedIsRecent(t, weakSource, m.epoch, e);
    CheckpointPathExists(live, backupRoot);
    InstalledCheckpointStarts(t, u, live, backupRoot + [name], stage, anchor, m, e);
    RunnerFollowsStart(u, live.config, m.epoch, e);
  }

  lemma CheckpointPathExists(live: LivePaths, backupRoot: Path)
    requires PairwiseApart(ProtectedPaths(live, backupRoot))
    ensures live.checkpoint != []
  {
    var ps := ProtectedPaths(live, backupRoot);
    assert Apart(ps[0], ps[3]);
  }

  lemma AcceptedIsRecent(t: Node, p: Path, epoch: nat, e: Codec)
    requires AnchorAccepted(t, p, epoch, e)
    ensures IsFile(t, p) && RecentAnchor(Get(t, p).value.content, epoch)
  {
  }
}
