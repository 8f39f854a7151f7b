/**
 Remote checkpoint inputs: choosing a completed epoch, resolving the anchor and
 downloading the archive. What is handed to the installer passes the
 installer's own checks. Replies, the clock and the operator are arbitrary;
 SHA-256 is a parameter.
 */
module Download {
  import opened Base
  import opened Acceptance
  import FileTree
  import NodeId

  datatype EpochReply = Epoch(epoch: nat) | RpcError

  /** A manifest request: a well-formed manifest, a 404, or any other failure. */
  datatype ManifestReply = Published(manifest: Manifest) | NotFound | FetchError

  datatype Policy = Exact | LatestAvailable | FailIfNewer | AskOperator

  datatype Selection = Selected(epoch: nat, manifest: Manifest) | Refused | Unfinished

  class Network {
    var epochs: seq<EpochReply>
    var manifests: seq<ManifestReply>
    var now: real
    /** Every network epoch read, every sleep counted, the operator's answer. */
    ghost var observed: seq<nat>
    ghost var slept: nat
    ghost var choseNewer: bool

    constructor (epochs: seq<EpochReply>, manifests: seq<ManifestReply>, now: real)
      ensures this.epochs == epochs && this.manifests == manifests && this.now == now
      ensures observed == [] && slept == 0 && !choseNewer
    {
      this.epochs, this.manifests, this.now := epochs, manifests, now;
      observed, slept, choseNewer := [], 0, false;
    }

    /** `time.monotonic()`: never backwards. */
    method Monotonic() returns (t: real)
      modifies this`now
      ensures t == now && now >= old(now)
    {
      var passed: real := *;
      if passed > 0.0 {
        now := now + passed;
      }
      t := now;
    }

    method Sleep(interval: real)
      requires interval > 0.0
      modifies this`now, this`slept
      ensures now >= old(now) + interval && slept == old(slept) + 1
    {
      now := now + interval;
      slept := slept + 1;
      var _ := Monotonic();
    }

    /** `current_epoch`; nothing when the stream of replies is over. */
    method CurrentEpoch() returns (r: Option<EpochReply>)
      modifies this`epochs, this`observed
      ensures r == if old(epochs) == [] then None else Some(old(epochs)[0])
      ensures r.Some? ==> epochs == old(epochs)[1..]
      ensures observed == if r.Some? && r.value.Epoch? then old(observed) + [r.value.epoch]
                          else old(observed)
    {
      if epochs == [] {
        return None;
      }
      r := Some(epochs[0]);
      epochs := epochs[1..];
      if r.value.Epoch? {
        observed := observed + [r.value.epoch];
      }
    }

    /** `try_fetch_manifest`. */
    method TryFetchManifest() returns (r: Option<ManifestReply>)
      modifies this`manifests
      ensures r == if old(manifests) == [] then None else Some(old(manifests)[0])
      ensures r.Some? ==> manifests == old(manifests)[1..]
    {
      if manifests == [] {
        return None;
      }
      r := Some(manifests[0]);
      manifests := manifests[1..];
    }
  }

  datatype Pace = Pace(start: real, interval: real, timeout: Option<real>)

  /** The sleeps so far fit between the start and now, and within the timeout. */
  predicate Paced(slept: nat, now: real, p: Pace) {
    && p.interval > 0.0
    && p.start + (slept as real) * p.interval <= now
    && (p.timeout.Some? && slept > 0 ==> (slept as real) * p.interval <= p.timeout.value)
  }

  lemma OneMoreSleep(slept: nat, at: real, now: real, p: Pace)
    requires Paced(slept, at, p) && at + p.interval <= now
    requires p.timeout.Some? ==> at + p.interval <= p.start + p.timeout.value
    ensures Paced(slept + 1, now, p)
  {
    assert ((slept + 1) as real) * p.interval == (slept as real) * p.interval + p.interval;
  }

  lemma NoSleepYet(now: real, p: Pace)
    requires p.interval > 0.0 && p.start <= now
    ensures Paced(0, now, p)
  {
  }

  lemma PacedFits(p: Pace)
    ensures forall slept: nat, now :: Paced(slept, now, p) && p.timeout.Some? && slept > 0 ==>
              (slept as real) * p.interval <= p.timeout.value
  {
  }

  /** Another sleep would cross the deadline. */
  predicate OutOfTime(now: real, p: Pace) {
    p.timeout.Some? && now + p.interval > p.start + p.timeout.value
  }

  /** `sleep_until_retry`: no sleep that would cross the deadline. */
  method SleepUntilRetry(w: Network, p: Pace) returns (ok: bool)
    requires Paced(w.slept, w.now, p)
    modifies w`now, w`slept
    ensures Paced(w.slept, w.now, p)
    ensures !ok ==> OutOfTime(w.now, p)
  {
    if p.timeout.Some? {
      var t := w.Monotonic();
      if t + p.interval > p.start + p.timeout.value {
        return false;
      }
    }
    ghost var at, slept := w.now, w.slept;
    w.Sleep(p.interval);
    OneMoreSleep(slept, at, w.now, p);
    return true;
  }

  /** The last network epoch read is past `selected`, none before it was. */
  ghost predicate FirstPast(observed: seq<nat>, selected: nat) {
    observed != [] && selected < observed[|observed| - 1] &&
    forall i :: 0 <= i < |observed| - 1 ==> observed[i] <= selected
  }

  /** What waiting for an epoch to complete comes to without a deadline. */
  function AwaitedEpoch(epochs: seq<EpochReply>, selected: nat): Result<nat, Selection> {
    if epochs == [] then Err(Unfinished)
    else if epochs[0].RpcError? then Err(Refused)
    else if epochs[0].epoch > selected then Ok(epochs[0].epoch)
    else AwaitedEpoch(epochs[1..], selected)
  }

  /** What waiting for a manifest comes to without a deadline. */
  function AwaitedManifest(manifests: seq<ManifestReply>): Result<Manifest, Selection> {
    if manifests == [] then Err(Unfinished)
    else
      match manifests[0]
      case FetchError => Err(Refused)
      case Published(m) => Ok(m)
      case NotFound => AwaitedManifest(manifests[1..])
  }

  /** `wait_until_epoch_completed`: the first network epoch past the selected one. */
  method WaitUntilEpochCompleted(w: Network, selected: nat, p: Pace)
    returns (r: Result<nat, Selection>)
    requires Paced(w.slept, w.now, p) && w.observed == []
    modifies w`epochs, w`observed, w`now, w`slept
    ensures r == AwaitedEpoch(old(w.epochs), selected) ||
            (r == Err(Refused) && OutOfTime(w.now, p))
    ensures Paced(w.slept, w.now, p)
    ensures r.Ok? ==> FirstPast(w.observed, selected) && r.value == w.observed[|w.observed| - 1]
    ensures r.Err? ==> r.error == Refused || r.error == Unfinished
    ensures r.Err? ==> forall i :: 0 <= i < |w.observed| ==> w.observed[i] <= selected
  {
    while true
      invariant Paced(w.slept, w.now, p)
      invariant forall i :: 0 <= i < |w.observed| ==> w.observed[i] <= selected
      invariant AwaitedEpoch(w.epochs, selected) == AwaitedEpoch(old(w.epochs), selected)
      decreases |w.epochs|
    {
      var reply := w.CurrentEpoch();
      if reply.None? {
        return Err(Unfinished);
      }
      if reply.value.RpcError? {
        return Err(Refused);
      }
      if reply.value.epoch > selected {
        return Ok(reply.value.epoch);
      }
      var ok := SleepUntilRetry(w, p);
      if !ok {
        return Err(Refused);
      }
    }
  }

  /** The manifest comes right after a number of 404 replies. */
  ghost predicate PublishedAfterWaiting(replies: seq<ManifestReply>, m: Manifest) {
    exists i :: PublishedAt(replies, i, m)
  }

  predicate PublishedAt(replies: seq<ManifestReply>, i: nat, m: Manifest) {
    i < |replies| && replies[i] == Published(m) && forall j :: 0 <= j < i ==> replies[j] == NotFound
  }

  /** `fetch_manifest_when_available`: only a 404 is worth another try. */
  method FetchManifestWhenAvailable(w: Network, p: Pace) returns (r: Result<Manifest, Selection>)
    requires Paced(w.slept, w.now, p)
    modifies w`manifests, w`now, w`slept
    ensures Paced(w.slept, w.now, p)
    ensures r.Err? ==> r.error == Refused || r.error == Unfinished
    ensures r.Ok? ==> PublishedAfterWaiting(old(w.manifests), r.value)
    ensures r == AwaitedManifest(old(w.manifests)) || (r == Err(Refused) && OutOfTime(w.now, p))
  {
    ghost var stream, i := w.manifests, 0;
    while true
      invariant Paced(w.slept, w.now, p)
      invariant 0 <= i <= |stream| && w.manifests == stream[i..]
      invariant forall j :: 0 <= j < i ==> stream[j] == NotFound
      invariant AwaitedManifest(w.manifests) == AwaitedManifest(stream)
      decreases |w.manifests|
    {
      ghost var before := w.manifests;
      var reply := w.TryFetchManifest();
      match reply
      case None => return Err(Unfinished);
      case Some(FetchError) => return Err(Refused);
      case Some(Published(m)) =>
        assert PublishedAt(stream, i, m);
        return Ok(m);
      case Some(NotFound) =>
        assert before[1..] == stream[i + 1..];
        i := i + 1;
        var ok := SleepUntilRetry(w, p);
        if !ok {
          return Err(Refused);
        }
    }
  }

  // ---------------------------------------------------------------------
  // Selecting an epoch
  // ---------------------------------------------------------------------

  /** `choose_newer_checkpoint`; an operator may also abort. */
  method ChooseNewerCheckpoint(w: Network, requested: nat, newer: nat, policy: Policy)
    returns (r: Option<nat>)
    modifies w`choseNewer
    ensures policy == Exact ==> r == Some(requested)
    ensures policy == LatestAvailable ==> r == Some(newer)
    ensures policy == FailIfNewer ==> r == None
    ensures policy == AskOperator && r.Some? ==>
              r.value == if w.choseNewer then newer else requested
    ensures policy != AskOperator ==> w.choseNewer == old(w.choseNewer)
  {
    match policy
    case Exact => return Some(requested);
    case LatestAvailable => return Some(newer);
    case FailIfNewer => return None;
    case AskOperator =>
      var aborts: bool, picksNewer: bool := *, *;
      if aborts {
        return None;
      }
      w.choseNewer := picksNewer;
      return Some(if picksNewer then newer else requested);
  }

  function Last(s: seq<nat>): nat
    requires s != []
  {
    s[|s| - 1]
  }

  /** Taking a newer checkpoint than the requested one was allowed. */
  ghost predicate NewerAllowed(policy: Policy, chosen: bool) {
    policy == LatestAvailable || (policy == AskOperator && chosen)
  }

  /**
   What a selection has to be: its manifest is of its epoch, the network was
   seen past it, and an explicit request is changed only to the newest
   completed epoch and only by permission.
   */
  ghost predicate GoodSelection(r: Selection, observed: seq<nat>, requested: Option<nat>,
                                policy: Policy, chosen: bool) {
    r.Selected? ==>
      && r.manifest.epoch == r.epoch
      && observed != [] && r.epoch < Last(observed)
      && (requested.None? ==> observed == [r.epoch + 1])
      && (requested.Some? ==> FirstPast(observed, requested.value))
      && (requested.Some? && r.epoch != requested.value ==>
          r.epoch == Last(observed) - 1 && requested.value < r.epoch &&
          NewerAllowed(policy, chosen))
  }

  /** The one probe for a newer manifest finds one, of the right epoch. */
  predicate NewerPublished(replies: seq<ManifestReply>, newest: nat) {
    replies != [] && replies[0].Published? && replies[0].manifest.epoch == newest
  }

  /** Whether the policy has a say: there is something newer, and it is published. */
  ghost predicate Probed(observed: seq<nat>, requested: Option<nat>, replies: seq<ManifestReply>) {
    requested.Some? && observed != [] && requested.value < Last(observed) - 1 &&
    NewerPublished(replies, Last(observed) - 1)
  }

  /** The epoch to start from: the requested one, or the newest completed one. */
  function Target(epochs: seq<EpochReply>, requested: Option<nat>): Result<nat, Selection> {
    if requested.Some? then Ok(requested.value)
    else if epochs == [] then Err(Unfinished)
    else if epochs[0].RpcError? || epochs[0].epoch == 0 then Err(Refused)
    else Ok(epochs[0].epoch - 1)
  }

  /** With nothing newer to consider, the outcome is that of the target's own manifest. */
  function PlainOutcome(manifests: seq<ManifestReply>, target: nat): Selection {
    var awaited := AwaitedManifest(manifests);
    if awaited.Err? then awaited.error
    else if awaited.value.epoch != target then Refused
    else Selected(target, awaited.value)
  }

  /** What one probe for the manifest of the newest completed epoch leads to. */
  function ProbeOutcome(manifests: seq<ManifestReply>, requested: nat, newest: nat,
                        policy: Policy): Selection
  {
    if manifests == [] then Unfinished
    else
      match manifests[0]
      case FetchError => Refused
      case NotFound => PlainOutcome(manifests[1..], requested)
      case Published(m) =>
        if m.epoch != newest || policy == FailIfNewer then Refused
        else if policy == LatestAvailable then Selected(newest, m)
        else PlainOutcome(manifests[1..], requested)
  }

  /** What a selection comes to without a deadline and without asking anyone. */
  function OutcomeOf(epochs: seq<EpochReply>, manifests: seq<ManifestReply>,
                     requested: Option<nat>, policy: Policy): Selection
  {
    var target := Target(epochs, requested);
    if target.Err? then target.error
    else if requested.None? then PlainOutcome(manifests, target.value)
    else
      match AwaitedEpoch(epochs, requested.value)
      case Err(e) => e
      case Ok(seen) =>
        if seen == requested.value + 1 then PlainOutcome(manifests, requested.value)
        else if seen == 0 then Refused
        else ProbeOutcome(manifests, requested.value, seen - 1, policy)
  }

  /** The last part of `select_epoch`: the selected epoch's own manifest. */
  method FetchSelected(w: Network, selected: nat, p: Pace) returns (r: Selection)
    requires Paced(w.slept, w.now, p)
    modifies w`manifests, w`now, w`slept
    ensures Paced(w.slept, w.now, p)
    ensures r.Selected? ==> r.epoch == selected && r.manifest.epoch == selected
    ensures r == PlainOutcome(old(w.manifests), selected) || (r == Refused && OutOfTime(w.now, p))
  {
    hide Paced, PublishedAfterWaiting, AwaitedManifest;
    var fetched := FetchManifestWhenAvailable(w, p);
    if fetched.Err? {
      return fetched.error;
    }
    if fetched.value.epoch != selected {
      return Refused;
    }
    return Selected(selected, fetched.value);
  }

  /** Refused for want of time: there is a deadline, and another sleep would cross it. */
  predicate LateRefusal(r: Selection, passed: real, interval: real, timeout: real) {
    r == Refused && timeout > 0.0 && passed + interval > timeout
  }

  /**
   `select_epoch`, under one deadline for all waiting. A zero timeout means no
   deadline.
   */
  method SelectEpoch(w: Network, requested: Option<nat>, policy: Policy, interval: real,
                     timeout: real)
    returns (r: Selection)
    requires interval > 0.0 && timeout >= 0.0
    requires w.observed == [] && w.slept == 0 && !w.choseNewer
    modifies w
    ensures GoodSelection(r, w.observed, requested, policy, w.choseNewer)
    ensures timeout > 0.0 && w.slept > 0 ==> (w.slept as real) * interval <= timeout
    ensures policy != AskOperator ==>
              r == OutcomeOf(old(w.epochs), old(w.manifests), requested, policy) ||
              LateRefusal(r, w.now - old(w.now), interval, timeout)
    ensures policy == AskOperator ==>
              r == OutcomeOf(old(w.epochs), old(w.manifests), requested, FailIfNewer) ||
              r == OutcomeOf(old(w.epochs), old(w.manifests), requested,
                             if w.choseNewer then LatestAvailable else Exact) ||
              LateRefusal(r, w.now - old(w.now), interval, timeout)
    ensures Probed(w.observed, requested, old(w.manifests)) && policy == LatestAvailable ==>
              r == Selected(Last(w.observed) - 1, old(w.manifests)[0].manifest)
    ensures Probed(w.observed, requested, old(w.manifests)) && policy == FailIfNewer ==>
              r == Refused
  {
    hide Paced, PlainOutcome, AwaitedEpoch;
    var start := w.Monotonic();
    var p := Pace(start, interval, if timeout == 0.0 then None else Some(timeout));
    NoSleepYet(w.now, p);
    PacedFits(p);
    var selected, networkEpoch;
    if requested.None? {
      var reply := w.CurrentEpoch();
      if reply.None? {
        return Unfinished;
      }
      if reply.value.RpcError? || reply.value.epoch == 0 {
        return Refused;
      }
      networkEpoch := reply.value.epoch;
      selected := networkEpoch - 1;
    } else {
      selected := requested.value;
      var waited := WaitUntilEpochCompleted(w, selected, p);
      if waited.Err? {
        return waited.error;
      }
      networkEpoch := waited.value;
    }
    var newestCompleted := if networkEpoch > 0 then networkEpoch - 1 else 0;
    if requested.Some? && newestCompleted > selected {
      var reply := w.TryFetchManifest();
      if reply.None? {
        return Unfinished;
      }
      if reply.value.FetchError? {
        return Refused;
      }
      if reply.value.Published? {
        var newer := reply.value.manifest;
        if newer.epoch != newestCompleted {
          return Refused;
        }
        var choice := ChooseNewerCheckpoint(w, selected, newestCompleted, policy);
        if choice.None? {
          return Refused;
        }
        selected := choice.value;
        if selected == newestCompleted {
          return Selected(selected, newer);
        }
      }
    }
    r := FetchSelected(w, selected, p);
  }

  // ---------------------------------------------------------------------
  // The anchor
  // ---------------------------------------------------------------------

  function HexBytes(bytes: seq<Byte>): string {
    if bytes == [] then ""
    else [NodeId.HEX[bytes[0] / 16], NodeId.HEX[bytes[0] % 16]] + HexBytes(bytes[1..])
  }

  lemma {:induction false} HexBytesAreDigits(bytes: seq<Byte>)
    ensures |HexBytes(bytes)| == 2 * |bytes|
    ensures forall i :: 0 <= i < |HexBytes(bytes)| ==> HexDigit(HexBytes(bytes)[i])
  {
    if bytes != [] {
      HexBytesAreDigits(bytes[1..]);
      NodeId.HexDigitValue(bytes[0] / 16);
      NodeId.HexDigitValue(bytes[0] % 16);
    }
  }

  lemma {:induction false} HexBytesSnoc(bytes: seq<Byte>, last: Byte)
    ensures HexBytes(bytes + [last]) == HexBytes(bytes) + HexBytes([last])
  {
    if bytes != [] {
      HexBytesSnoc(bytes[1..], last);
      assert (bytes + [last])[1..] == bytes[1..] + [last];
    } else {
      assert bytes + [last] == [last];
    }
  }

  lemma TwoDigits(s: string, b: Byte)
    requires NodeId.IsHex(s)
    ensures NodeId.IsHex(s + HexBytes([b]))
    ensures NodeId.HexValue(s + HexBytes([b])) == 256 * NodeId.HexValue(s) + b
  {
    NodeId.HexDigitValue(b / 16);
    NodeId.HexDigitValue(b % 16);
    var hi, lo := NodeId.HEX[b / 16], NodeId.HEX[b % 16];
    hide NodeId.DigitValue, NodeId.IsHexDigit;
    assert HexBytes([b]) == [hi, lo];
    var t := s + [hi, lo];
    assert t[..|t| - 1] == s + [hi] && (s + [hi])[..|s|] == s;
    assert NodeId.HexValue(s + [hi]) == 16 * NodeId.HexValue(s) + b / 16;
  }

  /** The digits spell the number that the bytes are, most significant first. */
  lemma {:induction false} HexBytesValue(bytes: seq<Byte>)
    ensures NodeId.IsHex(HexBytes(bytes))
    ensures NodeId.HexValue(HexBytes(bytes)) == NodeId.FromBytes(bytes)
    decreases |bytes|
  {
    if bytes != [] {
      var n := |bytes| - 1;
      HexBytesValue(bytes[..n]);
      assert bytes == bytes[..n] + [bytes[n]];
      HexBytesSnoc(bytes[..n], bytes[n]);
      TwoDigits(HexBytes(bytes[..n]), bytes[n]);
    }
  }

  /** Where the anchor comes from: a file or download as decoded, or a digest by RPC. */
  datatype AnchorSource =
    | Decoded(content: FileTree.Content)
    | Digest(epoch: int, digest: seq<int>)

  predicate DigestReplyValid(source: AnchorSource, epoch: nat)
    requires source.Digest?
  {
    source.epoch == epoch && |source.digest| == 32 &&
    forall i :: 0 <= i < 32 ==> 0 <= source.digest[i] < 256
  }

  /** A recent anchor, or a digest of 32 bytes for this very epoch. */
  predicate AnchorUsable(source: AnchorSource, epoch: nat) {
    match source
    case Decoded(content) => RecentAnchor(content, epoch)
    case Digest(named, digest) =>
      named == epoch && |digest| == 32 && forall i :: 0 <= i < 32 ==> 0 <= digest[i] < 256
  }

  /** `0x` and two hexadecimal digits for each byte, in their order. */
  predicate Spells(text: string, digest: seq<int>) {
    && |digest| == 32 && (forall i :: 0 <= i < 32 ==> 0 <= digest[i] < 256)
    && |text| == 66 && text[0] == '0' && text[1] == 'x' && NodeId.IsHex(text[2..])
    && NodeId.HexValue(text[2..]) ==
         NodeId.FromBytes(seq(32, i requires 0 <= i < 32 => digest[i]))
  }

  /** `resolve_weak_subjectivity`: what a digest reply becomes is always accepted. */
  method ResolveWeakSubjectivity(source: AnchorSource, epoch: nat)
    returns (r: Option<FileTree.Content>)
    ensures r.Some? ==> RecentAnchor(r.value, epoch)
    ensures r.Some? <==> AnchorUsable(source, epoch)
    ensures source.Digest? && r.Some? ==>
              && r.value.epoch == epoch && Spells(r.value.headerDigest, source.digest)
    ensures source.Decoded? ==>
              r == if RecentAnchor(source.content, epoch) then Some(source.content) else None
  {
    var anchor;
    if source.Digest? {
      if !DigestReplyValid(source, epoch) {
        return None;
      }
      var bytes: seq<Byte> := seq(32, i requires 0 <= i < 32 => source.digest[i]);
      anchor := FileTree.AnchorToml(epoch, "0x" + HexBytes(bytes));
      HexBytesAreDigits(bytes);
      HexBytesValue(bytes);
      assert ("0x" + HexBytes(bytes))[2..] == HexBytes(bytes);
      assert bytes == seq(32, i requires 0 <= i < 32 => source.digest[i]);
    } else {
      anchor := source.content;
    }
    return if RecentAnchor(anchor, epoch) then Some(anchor) else None;
  }

  // ---------------------------------------------------------------------
  // The archive
  // ---------------------------------------------------------------------

  /** One read of the response: some bytes, none at its end, or an error. */
  datatype Piece = Data(bytes: seq<Byte>) | Broken

  datatype ContentLength = Undeclared | Malformed | Declared(n: int)

  datatype Response = NoResponse | Response(length: ContentLength, pieces: seq<Piece>)

  /** Everything a response sends before its end, unless it breaks. */
  function Payload(pieces: seq<Piece>): Option<seq<Byte>> {
    if pieces == [] then Some([])
    else if pieces[0].Broken? then None
    else if pieces[0].bytes == [] then Some([])
    else
      var rest := Payload(pieces[1..]);
      if rest.None? then None else Some(pieces[0].bytes + rest.value)
  }

  /** The destination of the download. */
  class LocalFile {
    var content: Option<seq<Byte>>

    constructor (content: Option<seq<Byte>>)
      ensures this.content == content
    {
      this.content := content;
    }
  }

  predicate LengthAgrees(length: ContentLength, size: nat) {
    length.Undeclared? || length == Declared(size)
  }

  /** The archive that the manifest names. */
  predicate Identified(data: seq<Byte>, m: Manifest, sha256: seq<Byte> -> string) {
    |data| == m.archiveSize && sha256(data) == m.archiveHash
  }

  /** The response is the archive, whole and unbroken. */
  predicate Delivers(response: Response, m: Manifest, sha256: seq<Byte> -> string) {
    response.Response? &&
    (match response.length
     case Undeclared => true
     case Malformed => false
     case Declared(n) => n == m.archiveSize) &&
    Payload(response.pieces).Some? && Identified(Payload(response.pieces).value, m, sha256)
  }

  /** The loop of the download, into a file created for it. */
  method StreamToFile(file: LocalFile, pieces: seq<Piece>, size: nat)
    returns (ok: bool, written: nat)
    requires file.content == Some([])
    modifies file
    ensures ok ==> Payload(pieces) == file.content && file.content.Some? &&
                   written == |file.content.value|
    ensures !ok ==> Payload(pieces).None? || |Payload(pieces).value| > size
  {
    written := 0;
    var i := 0;
    ghost var all := Payload(pieces);
    assert pieces[0..] == pieces;
    assert all.Some? ==> [] + all.value == all.value;
    while i < |pieces|
      invariant i <= |pieces| && file.content.Some? && written == |file.content.value|
      invariant Payload(pieces) ==
                match Payload(pieces[i..])
                case None => None
                case Some(rest) => Some(file.content.value + rest)
      decreases |pieces| - i
    {
      assert pieces[i..][1..] == pieces[i + 1..];
      if pieces[i].Broken? {
        return false, written;
      }
      var chunk := pieces[i].bytes;
      if chunk == [] {
        break;
      }
      written := written + |chunk|;
      if written > size {
        return false, written;
      }
      ghost var rest := Payload(pieces[i + 1..]);
      assert rest.Some? ==>
          file.content.value + (chunk + rest.value) == file.content.value + chunk + rest.value;
      file.content := Some(file.content.value + chunk);
      i := i + 1;
    }
    assert i == |pieces| ==> pieces[i..] == [];
    assert Payload(pieces[i..]) == Some([]);
    assert file.content.value + [] == file.content.value;
    return true, written;
  }

  /**
   `download_verified_archive`: the archive named by the manifest, or the
   destination as it was before. An existing file is never overwritten.
   */
  method DownloadVerifiedArchive(file: LocalFile, freeSpace: nat, response: Response,
                                 m: Manifest, sha256: seq<Byte> -> string)
    returns (ok: bool)
    modifies file
    ensures ok <==> old(file.content).None? && m.archiveSize <= freeSpace &&
                    Delivers(response, m, sha256)
    ensures ok ==> file.content == Payload(response.pieces)
    ensures !ok ==> file.content == old(file.content)
  {
    if freeSpace < m.archiveSize || file.content.Some? {
      return false;
    }
    file.content := Some([]);
    if response.NoResponse? || !LengthAgrees(response.length, m.archiveSize) {
      file.content := None;
      return false;
    }
    var written;
    ok, written := StreamToFile(file, response.pieces, m.archiveSize);
    if !ok || written != m.archiveSize {
      file.content := None;
      return false;
    }
    if sha256(file.content.value) != m.archiveHash {
      file.content := None;
      return false;
    }
  }

  /** `hash_file`: chunk by chunk, the hash of the whole file. */
  method HashFile(data: seq<Byte>, sha256: seq<Byte> -> string) returns (r: string)
    ensures r == sha256(data)
  {
    var digested, at := [], 0;
    while true
      invariant at <= |data| && digested == data[..at]
      decreases |data| - at
    {
      var chunk := Chunk(data, at);
      if chunk == [] {
        break;
      }
      assert data[..at + |chunk|] == data[..at] + chunk;
      digested := digested + chunk;
      at := at + |chunk|;
    }
    assert data[..|data|] == data;
    return sha256(digested);
  }

  /** `verify_archive_identity`, which takes no empty file. */
  method VerifyArchiveIdentity(data: seq<Byte>, m: Manifest, sha256: seq<Byte> -> string)
    returns (ok: bool)
    ensures ok <==> data != [] && Identified(data, m, sha256)
  {
    if data == [] || |data| != m.archiveSize {
      return false;
    }
    var hash := HashFile(data, sha256);
    return hash == m.archiveHash;
  }

  // ---------------------------------------------------------------------
  // All inputs together
  // ---------------------------------------------------------------------

  datatype Resolved =
    | Ready(epoch: nat, manifest: Manifest, anchor: FileTree.Content, archive: seq<Byte>)
    | NotReady

  /**
   `resolve_checkpoint_inputs` for a remote source, followed by the installer's
   own checks of what it is given. They pass, except that the installer takes
   no empty archive and the download accepts one.
   */
  method ResolveAndVerify(w: Network, requested: Option<nat>, policy: Policy, interval: real,
                          timeout: real, source: AnchorSource, file: LocalFile,
                          freeSpace: nat, response: Response, sha256: seq<Byte> -> string)
    returns (r: Resolved, verified: bool)
    requires interval > 0.0 && timeout >= 0.0
    requires w.observed == [] && w.slept == 0 && !w.choseNewer && file.content.None?
    modifies w, file
    ensures r.Ready? ==>
              && r.manifest.epoch == r.epoch
              && GoodSelection(Selected(r.epoch, r.manifest), w.observed, requested, policy,
                               w.choseNewer)
              && file.content == Some(r.archive) && Identified(r.archive, r.manifest, sha256)
              && RecentAnchor(r.anchor, r.manifest.epoch)
    ensures policy != AskOperator && timeout == 0.0 ==>
              var s := OutcomeOf(old(w.epochs), old(w.manifests), requested, policy);
              r.Ready? <==>
              s.Selected? && AnchorUsable(source, s.epoch) &&
              s.manifest.archiveSize <= freeSpace && Delivers(response, s.manifest, sha256)
    ensures r.Ready? ==> (verified <==> r.manifest.archiveSize > 0)
    ensures r.NotReady? ==> file.content == None && !verified
  {
    var selection := SelectEpoch(w, requested, policy, interval, timeout);
    if !selection.Selected? {
      return NotReady, false;
    }
    var m := selection.manifest;
    var anchor := ResolveWeakSubjectivity(source, selection.epoch);
    if anchor.None? {
      return NotReady, false;
    }
    var ok := DownloadVerifiedArchive(file, freeSpace, response, m, sha256);
    if !ok {
      return NotReady, false;
    }
    r := Ready(selection.epoch, m, anchor.value, file.content.value);
    verified := VerifyArchiveIdentity(r.archive, m, sha256);
  }
}
