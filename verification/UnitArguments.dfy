/**
 The settings that hold whole command-line arguments because units cannot
 compute them: what `_require_flag_arg` and `_require_peering_args` accept.
 The syntax of an enode URL is a parameter.
 */
module UnitArguments {
  import opened Base
  import opened EnvGrammar
  import opened FileTree
  import opened Pieces

  const BOOTSTRAPPERS: string := "--bootstrappers"
  const TRUSTED_FLAGS: string :=
    "--disable-discovery" + (" " + ("--trusted-only" + (" " + "--trusted-peers")))
  const DISCOVERY_FLAGS: string :=
    "--disable-discv4-discovery --disable-dns-discovery " +
    "--enable-discv5-discovery --discovery.v5.port 30303"
  const ENODE_PREFIX: string := "enode://"

  // ---------------------------------------------------------------------
  // One flag with one value
  // ---------------------------------------------------------------------

  /** `str` of an absolute path. */
  function PathText(p: Path): string {
    "/" + Joined(p, '/')
  }

  predicate NoBlanks(s: string) {
    forall i :: 0 <= i < |s| ==> !IsSpace(s[i])
  }

  /** `_require_flag_arg`: the flag with its value, or nothing without one. */
  predicate FlagArgument(stored: string, flagName: string, value: string) {
    NoBlanks(value) && stored == if value == "" then "" else flagName + " " + value
  }

  /** The words systemd makes of an unquoted variable that has no blanks but spaces. */
  function Words(s: string): seq<string> {
    NotEmpty(Split(s, ' '))
  }

  function NotEmpty(pieces: seq<string>): seq<string> {
    if pieces == [] then []
    else if pieces[0] == "" then NotEmpty(pieces[1..])
    else [pieces[0]] + NotEmpty(pieces[1..])
  }

  /** An accepted argument expands to exactly the flag and its value, or to nothing. */
  lemma FlagArgumentExpands(stored: string, flagName: string, value: string)
    requires FlagArgument(stored, flagName, value) && flagName != "" && NoBlanks(flagName)
    ensures Words(stored) == if value == "" then [] else [flagName, value]
  {
    assert IsSpace(' ');
    if value == "" {
      assert Split("", ' ') == [""];
      assert NotEmpty([""]) == NotEmpty([""][1..]) == [];
    } else {
      hide IsSpace;
      OnlyPiece(value, ' ');
      FirstPiece(flagName, value, ' ');
      assert flagName + [' '] + value == stored;
      assert [flagName] + [value] == [flagName, value];
      assert [flagName, value][1..] == [value] && [value][1..] == [];
      assert NotEmpty([value]) == [value] + NotEmpty([]);
    }
  }

  lemma BootstrappersIsAWord()
    ensures BOOTSTRAPPERS != "" && NoBlanks(BOOTSTRAPPERS)
  {
    assert forall i :: 0 <= i < 15 ==> '-' <= BOOTSTRAPPERS[i] <= 'z';
  }

  /** The text of a path splits into its names, after the empty text before the first slash. */
  lemma PathTextSplits(p: Path)
    requires AllFree(p, '/') && p != []
    ensures Split(PathText(p), '/') == [""] + p
    ensures PathText([]) == "/"
  {
    SplitOfJoined(p, '/');
    FirstPiece("", Joined(p, '/'), '/');
    assert "" + ['/'] + Joined(p, '/') == PathText(p);
    assert "/" + "" == "/";
  }

  // ---------------------------------------------------------------------
  // The peering flags
  // ---------------------------------------------------------------------

  /** The trusted-peers file: none, one that is refused, or its entries. */
  datatype PeersFile = NoFile | BadFile | Entries(peers: seq<string>)

  function Lower(s: string): string {
    if s == "" then ""
    else [if 'A' <= s[0] <= 'Z' then s[0] - 'A' + 'a' else s[0]] + Lower(s[1..])
  }

  /** The node id in an enode URL: 128 characters after the prefix, as far as there are. */
  function IdOf(enode: string): string {
    if |enode| < |ENODE_PREFIX| then ""
    else if |enode| < |ENODE_PREFIX| + 128 then enode[|ENODE_PREFIX|..]
    else enode[|ENODE_PREFIX|..|ENODE_PREFIX| + 128]
  }

  /** `without_self` */
  function WithoutSelf(peers: seq<string>, nodeId: Option<string>): seq<string> {
    if nodeId.None? then peers
    else if peers == [] then []
    else
      var rest := WithoutSelf(peers[1..], nodeId);
      if Lower(IdOf(peers[0])) == Lower(nodeId.value) then rest else [peers[0]] + rest
  }

  /** `peering_args` */
  function PeeringArgs(mode: string, peers: seq<string>, bootnode: string): string {
    if mode == "trusted" then TRUSTED_FLAGS + " " + Joined(peers, ',')
    else if bootnode == "" then DISCOVERY_FLAGS
    else DISCOVERY_FLAGS + " --bootnodes " + bootnode
  }

  /** Printable ASCII, and no two spaces in a row. */
  predicate SingleSpaced(s: string) {
    (forall i :: 0 <= i < |s| ==> ' ' <= s[i] <= '~') &&
    forall i :: 0 <= i < |s| - 1 ==> s[i] != ' ' || s[i + 1] != ' '
  }

  /** The peers a stored argument lists after the flags. */
  function ListedPeers(stored: string): seq<string>
    requires TRUSTED_FLAGS + " " <= stored
  {
    Split(stored[|TRUSTED_FLAGS| + 1..], ',')
  }

  predicate AllEnodes(peers: seq<string>, enode: string -> bool) {
    forall i :: 0 <= i < |peers| ==> enode(peers[i])
  }

  predicate TrustedAccepted(stored: string, file: PeersFile, nodeId: Option<string>,
                            enode: string -> bool)
  {
    if stored == "" then file.NoFile?
    else
      && TRUSTED_FLAGS + " " <= stored && AllEnodes(ListedPeers(stored), enode)
      && !file.BadFile?
      && (file.Entries? ==>
          WithoutSelf(ListedPeers(stored), nodeId) == WithoutSelf(file.peers, nodeId))
  }

  /** `_require_peering_args` */
  predicate PeeringAccepted(mode: string, stored: string, bootnode: string, file: PeersFile,
                            nodeId: Option<string>, enode: string -> bool)
  {
    SingleSpaced(stored) &&
    if mode == "discovery" then stored == "" || stored == PeeringArgs(mode, [], bootnode)
    else TrustedAccepted(stored, file, nodeId, enode)
  }

  /** A peer's node id, lower case, is the given one. */
  lemma OwnEnode(id: string, address: string, nodeId: string)
    requires |id| == 128
    ensures IdOf("enode://" + id + address) == id
    ensures WithoutSelf(["enode://" + id + address], Some(nodeId)) ==
            if Lower(id) == Lower(nodeId) then [] else ["enode://" + id + address]
  {
    var p := "enode://" + id + address;
    assert p[8..136] == id;
    var others: seq<string> := [p][1..];
    assert others == [];
    assert WithoutSelf([], Some(nodeId)) == [];
  }

  /** Every peer is judged by itself, and the order stays. */
  lemma {:induction false} WithoutSelfConcat(a: seq<string>, b: seq<string>, nodeId: Option<string>)
    ensures WithoutSelf(a + b, nodeId) == WithoutSelf(a, nodeId) + WithoutSelf(b, nodeId)
  {
    if a == [] {
      assert a + b == b;
    } else if nodeId.Some? {
      assert (a + b)[1..] == a[1..] + b;
      WithoutSelfConcat(a[1..], b, nodeId);
    }
  }

  lemma {:induction false} LowerAt(s: string, i: nat)
    requires i < |s|
    ensures |Lower(s)| == |s|
    ensures Lower(s)[i] == if 'A' <= s[i] <= 'Z' then s[i] - 'A' + 'a' else s[i]
  {
    if |s| > 1 {
      LowerAt(s[1..], if i > 0 then i - 1 else 0);
    }
  }

  /** What a stored peering argument may be, spelled out. */
  predicate PlainlyAccepted(mode: string, stored: string, bootnode: string, file: PeersFile,
                            nodeId: Option<string>, enode: string -> bool)
  {
    && (forall i :: 0 <= i < |stored| ==> ' ' <= stored[i] <= '~')
    && (forall i :: 0 <= i < |stored| - 1 ==> stored[i] != ' ' || stored[i + 1] != ' ')
    && if stored == "" then mode == "discovery" || file.NoFile?
       else if mode == "discovery" then
         stored == "--disable-discv4-discovery --disable-dns-discovery " +
                   "--enable-discv5-discovery --discovery.v5.port 30303" +
                   if bootnode == "" then "" else " --bootnodes " + bootnode
       else
         && |stored| >= 51
         && stored[..51] == "--disable-discovery" + " --trusted-only" + " --trusted-peers" + " "
         && var listed := Split(stored[51..], ',');
           && (forall i :: 0 <= i < |listed| ==> enode(listed[i]))
           && !file.BadFile?
           && (file.Entries? ==> WithoutSelf(listed, nodeId) == WithoutSelf(file.peers, nodeId))
  }

  lemma TrustedFlagsSpelled()
    ensures TRUSTED_FLAGS + " " ==
            "--disable-discovery" + " --trusted-only" + " --trusted-peers" + " "
    ensures |TRUSTED_FLAGS| == 50
  {
    assert " --trusted-only" == " " + "--trusted-only";
    assert " --trusted-peers" == " " + "--trusted-peers";
  }

  lemma AcceptedIsSpelled(mode: string, stored: string, bootnode: string, file: PeersFile,
                          nodeId: Option<string>, enode: string -> bool)
    ensures PeeringAccepted(mode, stored, bootnode, file, nodeId, enode) <==>
            PlainlyAccepted(mode, stored, bootnode, file, nodeId, enode)
  {
    TrustedFlagsSpelled();
    hide TRUSTED_FLAGS, WithoutSelf;
  }

  /** What the pattern of an enode URL guarantees: printable, no spaces, no commas. */
  ghost predicate EnodeSyntax(enode: string -> bool) {
    !enode("") &&
    forall s: string :: enode(s) ==>
      Free(s, ',') && forall i :: 0 <= i < |s| ==> ' ' < s[i] <= '~'
  }

  lemma {:induction false} WithoutSelfTwice(peers: seq<string>, nodeId: Option<string>)
    ensures WithoutSelf(WithoutSelf(peers, nodeId), nodeId) == WithoutSelf(peers, nodeId)
    ensures forall i :: 0 <= i < |WithoutSelf(peers, nodeId)| ==>
              WithoutSelf(peers, nodeId)[i] in peers
  {
    if nodeId.Some? && peers != [] {
      WithoutSelfTwice(peers[1..], nodeId);
      var rest := WithoutSelf(peers[1..], nodeId);
      if Lower(IdOf(peers[0])) != Lower(nodeId.value) {
        assert ([peers[0]] + rest)[1..] == rest;
      }
    }
  }

  /** Printable, and no spaces at all. */
  predicate Solid(s: string) {
    forall i :: 0 <= i < |s| ==> ' ' < s[i] <= '~'
  }

  lemma SpacedWord(word: string, rest: string)
    requires Solid(word) && SingleSpaced(rest) && (rest == "" || rest[0] != ' ')
    ensures SingleSpaced(word + (" " + rest))
  {
    var s := word + (" " + rest);
    forall i | 0 <= i < |s|
      ensures ' ' <= s[i] <= '~' && (i < |s| - 1 ==> s[i] != ' ' || s[i + 1] != ' ')
    {
      if i > |word| {
        assert s[i] == rest[i - |word| - 1];
        assert i < |s| - 1 ==> s[i + 1] == rest[i - |word|];
      } else if i == |word| && rest != "" {
        assert s[i + 1] == rest[0];
      }
    }
  }

  lemma FlagsAreSolid()
    ensures Solid("--disable-discovery") && Solid("--trusted-only") && Solid("--trusted-peers")
  {
    assert forall i :: 0 <= i < 19 ==> ' ' < "--disable-discovery"[i] <= '~';
    assert forall i :: 0 <= i < 14 ==> ' ' < "--trusted-only"[i] <= '~';
    assert forall i :: 0 <= i < 15 ==> ' ' < "--trusted-peers"[i] <= '~';
  }

  /** The trusted flags and one more word. */
  lemma FlagsAreSingleSpaced(list: string)
    requires Solid(list) && list != ""
    ensures SingleSpaced(TRUSTED_FLAGS + " " + list)
  {
    FlagsAreSolid();
    var a, b, c := "--disable-discovery", "--trusted-only", "--trusted-peers";
    assert a[0] == b[0] == c[0] == '-';
    assert TRUSTED_FLAGS + " " + list == a + (" " + (b + (" " + (c + (" " + list)))));
    hide TRUSTED_FLAGS;
    SpacedWord(c, list);
    SpacedWord(b, c + (" " + list));
    SpacedWord(a, b + (" " + (c + (" " + list))));
  }

  lemma ListedAfterFlags(list: string)
    ensures TRUSTED_FLAGS + " " <= TRUSTED_FLAGS + " " + list
    ensures ListedPeers(TRUSTED_FLAGS + " " + list) == Split(list, ',')
  {
    hide TRUSTED_FLAGS;
    var head := TRUSTED_FLAGS + " ";
    assert (head + list)[|head|..] == list;
  }

  lemma SpacedList(peers: seq<string>, enode: string -> bool)
    requires EnodeSyntax(enode) && AllEnodes(peers, enode) && peers != []
    ensures SingleSpaced(TRUSTED_FLAGS + " " + Joined(peers, ','))
  {
    hide TRUSTED_FLAGS;
    var list := Joined(peers, ',');
    forall i | 0 <= i < |list|
      ensures ' ' < list[i] <= '~'
    {
      JoinedChars(peers, ',', list[i]);
    }
    assert peers[0] != "" && (|peers| == 1 ==> list == peers[0]);
    FlagsAreSingleSpaced(list);
  }

  /**
   What the installer renders in trusted mode from a peers file is accepted
   exactly when the file lists another node than this one.
   */
  lemma RenderedTrustedPeers(peers: seq<string>, nodeId: Option<string>, bootnode: string,
                             enode: string -> bool)
    requires EnodeSyntax(enode) && AllEnodes(peers, enode)
    ensures var stored := PeeringArgs("trusted", WithoutSelf(peers, nodeId), bootnode);
            PeeringAccepted("trusted", stored, bootnode, Entries(peers), nodeId, enode) <==>
            WithoutSelf(peers, nodeId) != []
  {
    var others := WithoutSelf(peers, nodeId);
    WithoutSelfTwice(peers, nodeId);
    assert AllEnodes(others, enode);
    hide TRUSTED_FLAGS, WithoutSelf;
    assert AllFree(others, ',');
    SplitOfJoined(others, ',');
    ListedAfterFlags(Joined(others, ','));
    if others == [] {
      assert [""][0] == "";
    } else {
      SpacedList(others, enode);
    }
  }
}
