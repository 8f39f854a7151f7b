/**
 Which settings of node.env apply, and what a validated environment holds.
 Whether a key applies is decided on raw strings, before they are validated.
 Regular expressions and address syntax are parameters.
 */
module Schema {
  import opened Base
  import opened FileTree
  import opened Fsutil
  import UnitArguments
  import EnvGrammar

  datatype Key =
    | SEISMIC_ROLE
    | RETH_DATA_DIR | SUMMIT_DATA_DIR | KEYS_DIR | RETH_P2P_KEY_PATH | SUMMIT_KEYS_DIR
    | SUMMIT_CRITICAL_LOG_DIR | SUMMIT_LOG_LEVEL
    | SUMMIT_BOOTSTRAPPERS_FILE | SUMMIT_BOOTSTRAPPERS_ARG
    | SUMMIT_INSTALL_METHOD | RETH_INSTALL_METHOD | SUMMIT_VERSION | RETH_VERSION
    | SUMMIT_PREBUILT_PATH | RETH_PREBUILT_PATH | RETH_MDBX_COPY_PREBUILT_PATH
    | GENESIS_PATH | RETH_PEERING | RETH_TRUSTED_PEERS_FILE | RETH_BOOTNODE_RPC
    | RETH_BOOTNODE | RETH_PEERING_ARGS | RETH_ENGINE_IPC
    | OBSERVER_PARENT_NODE_PUBLIC_KEY | OBSERVER_INDEX | OBSERVER_PUBLIC_ADDRESS
    | OBSERVER_P2P_PORT
    | CUSTODIAN_DATA_DIR | CUSTODIAN_INSTALL_METHOD | CUSTODIAN_VERSION
    | CUSTODIAN_PREBUILT_PATH | CUSTODIAN_SOCKET | CUSTODIAN_COUNCIL_PORT
    | CUSTODIAN_COUNCIL_ADDRESS | CUSTODIAN_CHAIN_ID | CUSTODIAN_PARENT_URL
    | CHECKPOINTER_ENABLED | CHECKPOINTS_DIR | CHECKPOINTER_INSTALL_METHOD
    | CHECKPOINTER_VERSION | CHECKPOINTER_PREBUILT_PATH | CHECKPOINTER_CONFIG_PATH
    | TLS_MODE | DOMAIN | CUSTODIAN_PUBLIC_URL | RATE_LIMIT_RPS | RATE_LIMIT_BURST
    | OPENRESTY_JWT_SECRET_PATH
    | MONITORING_MODE | MONITORING_NODE_NAME | MONITORING_REMOTE_WRITE_URL
    | MONITORING_OPERATOR_REMOTE_WRITE_URL | MONITORING_DATA_DIR

  type Raw = map<Key, string>

  // ---------------------------------------------------------------------
  // Conditions
  // ---------------------------------------------------------------------

  datatype Component = Summit | Reth | Custodian | Checkpointer

  datatype Condition =
    | Always
    | Observer
    | Validator
    | Checkpointing
    | Prebuilt(component: Component)
    | TlsManaged
    | TlsExternal
    | JwtSecretNeeded
    | Monitoring(mode: string)
    | Peering(mode: string)
    | Both(first: Condition, second: Condition)

  const MANAGED_TLS_MODES := {"custodian-only", "full"}
  const PULL_TLS_MODES := {"custodian-only", "full", "external"}

  function MethodKey(c: Component): Key {
    match c
    case Summit => SUMMIT_INSTALL_METHOD
    case Reth => RETH_INSTALL_METHOD
    case Custodian => CUSTODIAN_INSTALL_METHOD
    case Checkpointer => CHECKPOINTER_INSTALL_METHOD
  }

  function VersionKey(c: Component): Key {
    match c
    case Summit => SUMMIT_VERSION
    case Reth => RETH_VERSION
    case Custodian => CUSTODIAN_VERSION
    case Checkpointer => CHECKPOINTER_VERSION
  }

  predicate Is(raw: Raw, k: Key, s: string) {
    k in raw && raw[k] == s
  }

  predicate Managed(raw: Raw) {
    TLS_MODE in raw && raw[TLS_MODE] in MANAGED_TLS_MODES
  }

  predicate Holds(c: Condition, raw: Raw) {
    match c
    case Always => true
    case Observer => Is(raw, SEISMIC_ROLE, "observer")
    case Validator => Is(raw, SEISMIC_ROLE, "validator")
    case Checkpointing => Is(raw, CHECKPOINTER_ENABLED, "true")
    case Prebuilt(component) => Is(raw, MethodKey(component), "prebuilt")
    case TlsManaged => Managed(raw)
    case TlsExternal => Is(raw, TLS_MODE, "external")
    case JwtSecretNeeded =>
      Managed(raw) || (Is(raw, TLS_MODE, "external") && Is(raw, MONITORING_MODE, "pull"))
    case Monitoring(mode) => Is(raw, MONITORING_MODE, mode)
    case Peering(mode) => Is(raw, RETH_PEERING, mode)
    case Both(first, second) => Holds(first, raw) && Holds(second, raw)
  }

  /** The condition column of the schema. */
  function ConditionOf(k: Key): Condition {
    match k
    case SUMMIT_PREBUILT_PATH => Prebuilt(Summit)
    case RETH_PREBUILT_PATH => Prebuilt(Reth)
    case RETH_MDBX_COPY_PREBUILT_PATH => Both(Checkpointing, Prebuilt(Reth))
    case RETH_TRUSTED_PEERS_FILE => Peering("trusted")
    case RETH_BOOTNODE_RPC | RETH_BOOTNODE => Peering("discovery")
    case OBSERVER_PARENT_NODE_PUBLIC_KEY | OBSERVER_INDEX => Observer
    case OBSERVER_PUBLIC_ADDRESS | OBSERVER_P2P_PORT => Observer
    case CUSTODIAN_PREBUILT_PATH => Prebuilt(Custodian)
    case CUSTODIAN_PARENT_URL => Observer
    case CHECKPOINTS_DIR | CHECKPOINTER_INSTALL_METHOD => Checkpointing
    case CHECKPOINTER_VERSION | CHECKPOINTER_CONFIG_PATH => Checkpointing
    case CHECKPOINTER_PREBUILT_PATH => Both(Checkpointing, Prebuilt(Checkpointer))
    case DOMAIN | RATE_LIMIT_RPS | RATE_LIMIT_BURST => TlsManaged
    case CUSTODIAN_PUBLIC_URL => TlsExternal
    case OPENRESTY_JWT_SECRET_PATH => JwtSecretNeeded
    case MONITORING_NODE_NAME | MONITORING_DATA_DIR => Monitoring("push")
    case MONITORING_REMOTE_WRITE_URL => Both(Validator, Monitoring("push"))
    case MONITORING_OPERATOR_REMOTE_WRITE_URL => Monitoring("push")
    case _ => Always
  }

  predicate Applies(k: Key, raw: Raw) {
    Holds(ConditionOf(k), raw)
  }

  // ---------------------------------------------------------------------
  // Values
  // ---------------------------------------------------------------------

  datatype Value =
    | Text(text: string)
    | Location(path: Path)
    | NoLocation
    | Number(number: nat)
    | Flag(on: bool)

  datatype Kind =
    | Choice(choices: set<string>)
    | Boolean
    | Place
    | OptionalPlace
    | Count
    | Pattern

  const INSTALL_METHODS := {"download", "prebuilt", "source"}
  const SUMMIT_LOG_LEVELS := {"error", "warn", "info", "debug", "trace"}
  const PEERING_MODES := {"trusted", "discovery"}
  const TLS_MODES := {"disabled", "custodian-only", "full", "external"}
  const MONITORING_MODES := {"off", "push", "pull"}

  function KindOf(k: Key): Kind {
    match k
    case SEISMIC_ROLE => Choice(ROLES)
    case SUMMIT_LOG_LEVEL => Choice(SUMMIT_LOG_LEVELS)
    case SUMMIT_INSTALL_METHOD | RETH_INSTALL_METHOD => Choice(INSTALL_METHODS)
    case CUSTODIAN_INSTALL_METHOD | CHECKPOINTER_INSTALL_METHOD => Choice(INSTALL_METHODS)
    case RETH_PEERING => Choice(PEERING_MODES)
    case TLS_MODE => Choice(TLS_MODES)
    case MONITORING_MODE => Choice(MONITORING_MODES)
    case CHECKPOINTER_ENABLED => Boolean
    case SUMMIT_BOOTSTRAPPERS_FILE => OptionalPlace
    case OBSERVER_INDEX | OBSERVER_P2P_PORT | CUSTODIAN_COUNCIL_PORT => Count
    case CUSTODIAN_CHAIN_ID | RATE_LIMIT_RPS | RATE_LIMIT_BURST => Count
    case SUMMIT_BOOTSTRAPPERS_ARG | SUMMIT_VERSION | RETH_VERSION => Pattern
    case RETH_BOOTNODE_RPC | RETH_BOOTNODE | RETH_PEERING_ARGS => Pattern
    case OBSERVER_PARENT_NODE_PUBLIC_KEY | OBSERVER_PUBLIC_ADDRESS => Pattern
    case CUSTODIAN_VERSION | CUSTODIAN_COUNCIL_ADDRESS | CUSTODIAN_PARENT_URL => Pattern
    case CHECKPOINTER_VERSION | DOMAIN | CUSTODIAN_PUBLIC_URL => Pattern
    case MONITORING_NODE_NAME | MONITORING_REMOTE_WRITE_URL => Pattern
    case MONITORING_OPERATOR_REMOTE_WRITE_URL => Pattern
    case _ => Place
  }

  /** The syntax checks: paths, integers in their range, and patterns. */
  datatype Syntax = Syntax(
    path: (Key, string) -> Option<Path>,
    number: (Key, string) -> Option<nat>,
    matches: (Key, string) -> bool,
    releaseTag: string -> bool,
    portOf: string -> nat,
    enode: string -> bool)

  /** What the rules read on the node itself: the peers file and the node's own id. */
  datatype Host = Host(file: UnitArguments.PeersFile, nodeId: Option<string>)

  /** A key's validator: the value, or nothing when it raises. */
  function Check(k: Key, s: string, syntax: Syntax): Option<Value> {
    match KindOf(k)
    case Choice(choices) => if s in choices then Some(Text(s)) else None
    case Boolean =>
      if s == "true" then Some(Flag(true)) else if s == "false" then Some(Flag(false)) else None
    case Place =>
      var p := syntax.path(k, s);
      if p.Some? then Some(Location(p.value)) else None
    case OptionalPlace =>
      var p := syntax.path(k, s);
      if s == "" then Some(NoLocation) else if p.Some? then Some(Location(p.value)) else None
    case Count =>
      var n := syntax.number(k, s);
      if n.Some? then Some(Number(n.value)) else None
    case Pattern => if syntax.matches(k, s) then Some(Text(s)) else None
  }

  // ---------------------------------------------------------------------
  // Validating every key
  // ---------------------------------------------------------------------

  const CONDITION_INPUTS: set<Key> := {
    SEISMIC_ROLE, CHECKPOINTER_ENABLED, MONITORING_MODE, RETH_PEERING, TLS_MODE,
    SUMMIT_INSTALL_METHOD, RETH_INSTALL_METHOD, CUSTODIAN_INSTALL_METHOD,
    CHECKPOINTER_INSTALL_METHOD}

  const SCHEMA: set<Key> := set k: Key | true

  /** A blank MONITORING_MODE stands for the role's default. */
  function Resolved(raw: Raw): Raw {
    if !Is(raw, MONITORING_MODE, "") then raw
    else raw[MONITORING_MODE :=
      MonitoringDefault(if SEISMIC_ROLE in raw then raw[SEISMIC_ROLE] else "")]
  }

  predicate Accepts(k: Key, raw: Raw, syntax: Syntax) {
    k in raw && Check(k, raw[k], syntax).Some?
  }

  ghost predicate ValidKeys(raw: Raw, syntax: Syntax) {
    forall k :: Applies(k, raw) ==> Accepts(k, raw, syntax)
  }

  /** The values are those of the keys that apply. */
  ghost predicate ValuesOf(values: map<Key, Value>, raw: Raw, syntax: Syntax) {
    (forall k :: k in values <==> Applies(k, raw)) &&
    forall k :: k in values ==>
      Accepts(k, raw, syntax) && values[k] == Check(k, raw[k], syntax).value
  }

  /** One pass over some keys, in any order; `missing` ones are only noted. */
  method ValidatePass(keys: set<Key>, raw: Raw, known: map<Key, Value>, syntax: Syntax)
    returns (values: map<Key, Value>, failed: bool)
    requires forall k :: k in known ==>
      Applies(k, raw) && Accepts(k, raw, syntax) && known[k] == Check(k, raw[k], syntax).value
    ensures failed <==> exists k :: k in keys && Applies(k, raw) && !Accepts(k, raw, syntax)
    ensures forall k :: k in values ==>
      Applies(k, raw) && Accepts(k, raw, syntax) && values[k] == Check(k, raw[k], syntax).value
    ensures !failed ==>
      forall k :: k in values <==> k in known || (k in keys && Applies(k, raw))
  {
    hide Check, Applies;
    values := known;
    var todo, missing := keys, {};
    while todo != {}
      invariant todo <= keys
      invariant forall k :: k in values ==>
        Applies(k, raw) && Accepts(k, raw, syntax) && values[k] == Check(k, raw[k], syntax).value
      invariant forall k :: k in missing ==> k in keys && Applies(k, raw) && k !in raw
      invariant forall k :: k in known ==> k in values
      invariant forall k :: k in values ==> k in known || k in keys
      invariant forall k :: k in keys - todo && Applies(k, raw) ==> k in values || k in missing
      decreases |todo|
    {
      var k :| k in todo;
      todo := todo - {k};
      if k in values || !Applies(k, raw) {
      } else if k !in raw {
        missing := missing + {k};
      } else {
        var value := Check(k, raw[k], syntax);
        if value.None? {
          return values, true;
        }
        values := values[k := value.value];
      }
    }
    failed := missing != {};
    if failed {
      var k :| k in missing;
    }
  }

  /**
   The first part of `_validate`: unknown keys, the monitoring default, the
   inputs of conditions, then every other key.
   */
  method ValidateKeys(given: Raw, unknown: set<string>, syntax: Syntax)
    returns (r: Option<map<Key, Value>>)
    ensures r.Some? <==> unknown == {} && ValidKeys(Resolved(given), syntax)
    ensures r.Some? ==> ValuesOf(r.value, Resolved(given), syntax)
  {
    hide Check, Applies, Accepts;
    if unknown != {} {
      return None;
    }
    var raw := Resolved(given);
    var values, failed := ValidatePass(CONDITION_INPUTS, raw, map[], syntax);
    if failed {
      return None;
    }
    values, failed := ValidatePass(SCHEMA, raw, values, syntax);
    return if failed then None else Some(values);
  }

  // ---------------------------------------------------------------------
  // Keys that do not apply do not matter
  // ---------------------------------------------------------------------

  predicate SameSetting(raw: Raw, other: Raw, k: Key) {
    (k in raw <==> k in other) && (k in raw ==> raw[k] == other[k])
  }

  /** The other environment agrees wherever a key applies. */
  ghost predicate AgreeWhereApplicable(raw: Raw, other: Raw) {
    forall k :: Applies(k, Resolved(raw)) ==> SameSetting(raw, other, k)
  }

  lemma ResolvedAgrees(raw: Raw, other: Raw, k: Key)
    requires SameSetting(raw, other, SEISMIC_ROLE) && SameSetting(raw, other, MONITORING_MODE)
    requires SameSetting(raw, other, k)
    ensures SameSetting(Resolved(raw), Resolved(other), k)
  {
  }

  predicate Unconditional(k: Key) {
    ConditionOf(k) == Always
  }

  /**
   One input of conditions is conditional itself; the schema only looks at it
   behind the condition that it applies.
   */
  predicate Guarded(c: Condition) {
    match c
    case Prebuilt(component) => component != Checkpointer
    case Both(Checkpointing, Prebuilt(_)) => true
    case Both(first, second) => Guarded(first) && Guarded(second)
    case _ => true
  }

  lemma SchemaIsGuarded(k: Key)
    ensures Guarded(ConditionOf(k))
  {
  }

  lemma {:induction false} ConditionAgrees(c: Condition, raw: Raw, other: Raw)
    requires Guarded(c)
    requires forall k :: Unconditional(k) ==> SameSetting(raw, other, k)
    requires Is(raw, CHECKPOINTER_ENABLED, "true") ==>
               SameSetting(raw, other, CHECKPOINTER_INSTALL_METHOD)
    ensures Holds(c, raw) <==> Holds(c, other)
  {
    hide ConditionOf, Holds, SameSetting;
    match c
    case Both(Checkpointing, Prebuilt(component)) =>
      GuardedAgrees(component, raw, other);
    case Both(first, second) =>
      ConditionAgrees(first, raw, other);
      ConditionAgrees(second, raw, other);
      BothHolds(first, second, raw);
      BothHolds(first, second, other);
    case _ =>
      SimpleAgrees(c, raw, other);
  }

  lemma BothHolds(first: Condition, second: Condition, raw: Raw)
    ensures Holds(Both(first, second), raw) <==> Holds(first, raw) && Holds(second, raw)
  {
  }

  lemma GuardedAgrees(c: Component, raw: Raw, other: Raw)
    requires forall k :: Unconditional(k) ==> SameSetting(raw, other, k)
    requires Is(raw, CHECKPOINTER_ENABLED, "true") ==>
               SameSetting(raw, other, CHECKPOINTER_INSTALL_METHOD)
    ensures Holds(Both(Checkpointing, Prebuilt(c)), raw) <==>
            Holds(Both(Checkpointing, Prebuilt(c)), other)
  {
    SimpleAgrees(Checkpointing, raw, other);
    if c != Checkpointer {
      SimpleAgrees(Prebuilt(c), raw, other);
    }
    hide ConditionOf, Unconditional;
  }

  lemma SimpleAgrees(c: Condition, raw: Raw, other: Raw)
    requires Guarded(c) && !c.Both?
    requires forall k :: Unconditional(k) ==> SameSetting(raw, other, k)
    ensures Holds(c, raw) <==> Holds(c, other)
  {
    assert Unconditional(SEISMIC_ROLE) && Unconditional(CHECKPOINTER_ENABLED);
    assert Unconditional(MONITORING_MODE) && Unconditional(RETH_PEERING);
    assert Unconditional(TLS_MODE) && Unconditional(SUMMIT_INSTALL_METHOD);
    assert Unconditional(RETH_INSTALL_METHOD) && Unconditional(CUSTODIAN_INSTALL_METHOD);
    hide ConditionOf;
  }

  /** Settings of keys that do not apply never decide which keys apply. */
  lemma SameKeysApply(raw: Raw, other: Raw)
    requires AgreeWhereApplicable(raw, other)
    ensures forall k :: Applies(k, Resolved(raw)) <==> Applies(k, Resolved(other))
    ensures forall k :: Applies(k, Resolved(raw)) ==>
              SameSetting(Resolved(raw), Resolved(other), k)
  {
    var r, s := Resolved(raw), Resolved(other);
    assert Applies(SEISMIC_ROLE, r) && Applies(MONITORING_MODE, r);
    forall k | Applies(k, r)
      ensures SameSetting(r, s, k)
    {
      ResolvedAgrees(raw, other, k);
    }
    hide Resolved;
    forall k | Unconditional(k)
      ensures SameSetting(r, s, k)
    {
      assert Applies(k, r);
    }
    assert Applies(CHECKPOINTER_INSTALL_METHOD, r) <==> Is(r, CHECKPOINTER_ENABLED, "true");
    forall k
      ensures Applies(k, r) <==> Applies(k, s)
    {
      SchemaIsGuarded(k);
      ConditionAgrees(ConditionOf(k), r, s);
    }
  }

  /**
   Two environments that agree on the applicable keys validate to the same
   values, or both fail.
   */
  lemma InapplicableKeysDoNotMatter(raw: Raw, other: Raw, syntax: Syntax)
    requires AgreeWhereApplicable(raw, other)
    ensures ValidKeys(Resolved(raw), syntax) <==> ValidKeys(Resolved(other), syntax)
    ensures forall v, w ::
              ValuesOf(v, Resolved(raw), syntax) && ValuesOf(w, Resolved(other), syntax) ==>
              v == w
  {
    SameKeysApply(raw, other);
    hide Applies, Check, Resolved;
    var r, s := Resolved(raw), Resolved(other);
    assert forall k :: Applies(k, r) ==> (Accepts(k, r, syntax) <==> Accepts(k, s, syntax));
    forall v, w | ValuesOf(v, r, syntax) && ValuesOf(w, s, syntax)
      ensures v == w
    {
      assert forall k :: k in v <==> k in w;
      forall k | k in v
        ensures v[k] == w[k]
      {
        assert Applies(k, r) && SameSetting(r, s, k);
      }
    }
  }

  // ---------------------------------------------------------------------
  // Rules across keys
  // ---------------------------------------------------------------------

  predicate HasPath(values: map<Key, Value>, k: Key) {
    k in values && values[k].Location?
  }

  predicate HasText(values: map<Key, Value>, k: Key) {
    k in values && values[k].Text?
  }

  /** Every value has the type of its key. */
  lemma ValuesAreTyped(values: map<Key, Value>, raw: Raw, syntax: Syntax, k: Key)
    requires ValuesOf(values, raw, syntax) && Applies(k, raw)
    ensures KindOf(k).Place? ==> HasPath(values, k)
    ensures KindOf(k).Pattern? ==> HasText(values, k) && values[k].text == raw[k]
    ensures KindOf(k).Choice? ==>
              HasText(values, k) && values[k].text == raw[k] && raw[k] in KindOf(k).choices
    ensures KindOf(k).Count? ==> k in values && values[k].Number?
    ensures KindOf(k).OptionalPlace? ==>
              k in values && (values[k].Location? || values[k].NoLocation?)
    ensures KindOf(k).Boolean? ==>
              k in values && values[k].Flag? && (values[k].on <==> raw[k] == "true")
  {
  }

  predicate Within(path: Path, parent: Path) {
    IsRelativeTo(path, parent) && path != parent
  }

  predicate HasLayout(values: map<Key, Value>) {
    && HasPath(values, RETH_DATA_DIR) && HasPath(values, SUMMIT_DATA_DIR)
    && HasPath(values, KEYS_DIR) && HasPath(values, CUSTODIAN_DATA_DIR)
    && HasPath(values, RETH_P2P_KEY_PATH) && HasPath(values, SUMMIT_KEYS_DIR)
    && HasPath(values, SUMMIT_CRITICAL_LOG_DIR)
    && SUMMIT_BOOTSTRAPPERS_FILE in values
    && (values[SUMMIT_BOOTSTRAPPERS_FILE].Location? ||
        values[SUMMIT_BOOTSTRAPPERS_FILE].NoLocation?)
    && (CHECKPOINTS_DIR in values ==> values[CHECKPOINTS_DIR].Location?)
    && (MONITORING_DATA_DIR in values ==> values[MONITORING_DATA_DIR].Location?)
  }

  /** The accessors of the layout rules always find their value, of their type. */
  lemma LayoutKeysApply(values: map<Key, Value>, raw: Raw, syntax: Syntax)
    requires ValuesOf(values, raw, syntax)
    ensures HasLayout(values)
  {
    hide ValuesOf;
    PathThere(values, raw, syntax, RETH_DATA_DIR);
    PathThere(values, raw, syntax, SUMMIT_DATA_DIR);
    PathThere(values, raw, syntax, KEYS_DIR);
    PathThere(values, raw, syntax, CUSTODIAN_DATA_DIR);
    PathThere(values, raw, syntax, RETH_P2P_KEY_PATH);
    PathThere(values, raw, syntax, SUMMIT_KEYS_DIR);
    PathThere(values, raw, syntax, SUMMIT_CRITICAL_LOG_DIR);
    PathThere(values, raw, syntax, CHECKPOINTS_DIR);
    PathThere(values, raw, syntax, MONITORING_DATA_DIR);
    ValuesAreTyped(values, raw, syntax, SUMMIT_BOOTSTRAPPERS_FILE);
  }

  lemma PathThere(values: map<Key, Value>, raw: Raw, syntax: Syntax, k: Key)
    requires ValuesOf(values, raw, syntax) && KindOf(k).Place?
    ensures Applies(k, raw) <==> k in values
    ensures Applies(k, raw) ==> HasPath(values, k)
  {
    hide KindOf, Applies;
    if Applies(k, raw) {
      ValuesAreTyped(values, raw, syntax, k);
    }
  }

  lemma TextThere(values: map<Key, Value>, raw: Raw, syntax: Syntax, k: Key)
    requires ValuesOf(values, raw, syntax) && (KindOf(k).Pattern? || KindOf(k).Choice?)
    ensures Applies(k, raw) <==> k in values
    ensures Applies(k, raw) ==> k in raw && HasText(values, k) && values[k].text == raw[k]
    ensures Applies(k, raw) && KindOf(k).Choice? ==> raw[k] in KindOf(k).choices
  {
    hide KindOf, Applies;
    if Applies(k, raw) {
      ValuesAreTyped(values, raw, syntax, k);
    }
  }

  /** The directories that must not overlap. */
  ghost function TopLevel(values: map<Key, Value>): seq<Path>
    requires HasLayout(values)
  {
    [values[RETH_DATA_DIR].path, values[SUMMIT_DATA_DIR].path, values[KEYS_DIR].path,
     values[CUSTODIAN_DATA_DIR].path] +
    (if CHECKPOINTS_DIR in values then [values[CHECKPOINTS_DIR].path] else []) +
    if MONITORING_DATA_DIR in values then [values[MONITORING_DATA_DIR].path] else []
  }

  /** Secrets below the key directory, logs below the data, and separate top directories. */
  ghost predicate LayoutRules(values: map<Key, Value>)
    requires HasLayout(values)
  {
    && values[KEYS_DIR].path < values[RETH_P2P_KEY_PATH].path
    && values[KEYS_DIR].path < values[SUMMIT_KEYS_DIR].path
    && values[SUMMIT_DATA_DIR].path < values[SUMMIT_CRITICAL_LOG_DIR].path
    && PairwiseApart(TopLevel(values))
    && Apart(values[RETH_P2P_KEY_PATH].path, values[SUMMIT_KEYS_DIR].path)
    && (values[SUMMIT_BOOTSTRAPPERS_FILE].Location? ==>
        values[SUMMIT_KEYS_DIR].path < values[SUMMIT_BOOTSTRAPPERS_FILE].path)
  }

  /** `_validate_layout`. */
  method ValidateLayout(values: map<Key, Value>) returns (ok: bool)
    requires HasLayout(values)
    ensures ok ==> PairwiseApart([values[RETH_DATA_DIR].path, values[SUMMIT_DATA_DIR].path,
                                  values[SUMMIT_KEYS_DIR].path])
    ensures ok <==> LayoutRules(values)
  {
    var keysDir := values[KEYS_DIR].path;
    if !Within(values[RETH_P2P_KEY_PATH].path, keysDir) ||
       !Within(values[SUMMIT_KEYS_DIR].path, keysDir) {
      return false;
    }
    if !Within(values[SUMMIT_CRITICAL_LOG_DIR].path, values[SUMMIT_DATA_DIR].path) {
      return false;
    }
    var top := [values[RETH_DATA_DIR].path, values[SUMMIT_DATA_DIR].path, keysDir,
                values[CUSTODIAN_DATA_DIR].path];
    if CHECKPOINTS_DIR in values {
      top := top + [values[CHECKPOINTS_DIR].path];
    }
    if MONITORING_DATA_DIR in values {
      top := top + [values[MONITORING_DATA_DIR].path];
    }
    assert top == TopLevel(values);
    ok := RequireSeparatePaths(top);
    if !ok {
      return false;
    }
    TransactionPathsApart(values);
    var secrets := [values[RETH_P2P_KEY_PATH].path, values[SUMMIT_KEYS_DIR].path];
    ok := RequireSeparatePaths(secrets);
    assert ok <==> Apart(secrets[0], secrets[1]);
    if !ok {
      return false;
    }
    return values[SUMMIT_BOOTSTRAPPERS_FILE].NoLocation? ||
      Within(values[SUMMIT_BOOTSTRAPPERS_FILE].path, values[SUMMIT_KEYS_DIR].path);
  }

  /** The data directories and the Summit keys, which the transaction keeps apart, are apart. */
  lemma TransactionPathsApart(values: map<Key, Value>)
    requires HasLayout(values) && PairwiseApart(TopLevel(values))
    requires values[KEYS_DIR].path <= values[SUMMIT_KEYS_DIR].path
    ensures PairwiseApart([values[RETH_DATA_DIR].path, values[SUMMIT_DATA_DIR].path,
                           values[SUMMIT_KEYS_DIR].path])
  {
    var top := TopLevel(values);
    var keys, summitKeys := values[KEYS_DIR].path, values[SUMMIT_KEYS_DIR].path;
    assert summitKeys == keys + summitKeys[|keys|..];
    assert Apart(top[0], top[1]) && Apart(top[0], top[2]) && Apart(top[1], top[2]);
    ApartBelow(top[0], keys, [], summitKeys[|keys|..]);
    ApartBelow(top[1], keys, [], summitKeys[|keys|..]);
    assert top[0] + [] == top[0] && top[1] + [] == top[1];
  }

  // ---------------------------------------------------------------------
  // Derived rules
  // ---------------------------------------------------------------------

  predicate HasPeering(values: map<Key, Value>) {
    HasText(values, RETH_PEERING) && HasText(values, RETH_PEERING_ARGS) &&
    (if values[RETH_PEERING].text == "discovery" then HasText(values, RETH_BOOTNODE)
     else HasPath(values, RETH_TRUSTED_PEERS_FILE))
  }

  predicate HasBootstrappers(values: map<Key, Value>) {
    SUMMIT_BOOTSTRAPPERS_FILE in values &&
    (values[SUMMIT_BOOTSTRAPPERS_FILE].Location? || values[SUMMIT_BOOTSTRAPPERS_FILE].NoLocation?)
  }

  predicate HasVersion(values: map<Key, Value>, c: Component) {
    MethodKey(c) in values ==> HasText(values, MethodKey(c)) && HasText(values, VersionKey(c))
  }

  /** Every setting the derived rules ask for is there, whichever branch they take. */
  predicate HasDerived(values: map<Key, Value>) {
    && (forall c: Component :: HasVersion(values, c))
    && (RETH_MDBX_COPY_PREBUILT_PATH in values ==>
        HasPath(values, RETH_MDBX_COPY_PREBUILT_PATH) && HasPath(values, RETH_PREBUILT_PATH))
    && HasPeering(values)
    && HasText(values, SEISMIC_ROLE) && HasText(values, MONITORING_MODE)
    && HasText(values, TLS_MODE) && HasText(values, SUMMIT_BOOTSTRAPPERS_ARG)
    && HasBootstrappers(values)
    && (values[SEISMIC_ROLE].text == "observer" ==>
        HasText(values, OBSERVER_PUBLIC_ADDRESS) &&
        OBSERVER_P2P_PORT in values && values[OBSERVER_P2P_PORT].Number?)
    && (values[MONITORING_MODE].text == "push" ==>
        HasText(values, MONITORING_OPERATOR_REMOTE_WRITE_URL))
  }

  lemma VersionsApply(values: map<Key, Value>, raw: Raw, syntax: Syntax, c: Component)
    requires ValuesOf(values, raw, syntax)
    ensures HasVersion(values, c)
  {
    hide Check, ConditionOf, KindOf;
    VersionGoesWithMethod(c);
    if MethodKey(c) in values {
      ValuesAreTyped(values, raw, syntax, MethodKey(c));
      ValuesAreTyped(values, raw, syntax, VersionKey(c));
    }
  }

  lemma VersionGoesWithMethod(c: Component)
    ensures ConditionOf(MethodKey(c)) == ConditionOf(VersionKey(c))
    ensures KindOf(MethodKey(c)).Choice? && KindOf(VersionKey(c)).Pattern?
  {
  }

  /** No accessor of the derived rules raises on a validated environment. */
  lemma DerivedKeysApply(values: map<Key, Value>, raw: Raw, syntax: Syntax)
    requires ValuesOf(values, raw, syntax)
    ensures HasDerived(values)
  {
    hide Check;
    forall c
      ensures HasVersion(values, c)
    {
      VersionsApply(values, raw, syntax, c);
    }
    BasicsApply(values, raw, syntax);
    BootstrappersApply(values, raw, syntax);
    MdbxCopyApplies(values, raw, syntax);
    PeeringApplies(values, raw, syntax);
    ObserverApplies(values, raw, syntax);
    if Is(raw, MONITORING_MODE, "push") {
      PushApplies(values, raw, syntax);
    }
    hide ValuesOf, HasVersion, HasPeering, ConditionOf, KindOf, Holds;
  }

  lemma BasicsApply(values: map<Key, Value>, raw: Raw, syntax: Syntax)
    requires ValuesOf(values, raw, syntax)
    ensures SEISMIC_ROLE in raw && raw[SEISMIC_ROLE] in ROLES
    ensures MONITORING_MODE in raw && raw[MONITORING_MODE] in MONITORING_MODES
    ensures TLS_MODE in raw && raw[TLS_MODE] in TLS_MODES
    ensures HasText(values, SEISMIC_ROLE) && values[SEISMIC_ROLE].text == raw[SEISMIC_ROLE]
    ensures HasText(values, TLS_MODE) && values[TLS_MODE].text == raw[TLS_MODE]
    ensures HasText(values, MONITORING_MODE)
    ensures values[MONITORING_MODE].text == raw[MONITORING_MODE]
    ensures HasText(values, SUMMIT_BOOTSTRAPPERS_ARG)
  {
    hide ValuesOf;
    TextThere(values, raw, syntax, SEISMIC_ROLE);
    TextThere(values, raw, syntax, MONITORING_MODE);
    TextThere(values, raw, syntax, TLS_MODE);
    TextThere(values, raw, syntax, SUMMIT_BOOTSTRAPPERS_ARG);
  }

  lemma ObserverApplies(values: map<Key, Value>, raw: Raw, syntax: Syntax)
    requires ValuesOf(values, raw, syntax)
    ensures Is(raw, SEISMIC_ROLE, "observer") <==> CUSTODIAN_PARENT_URL in values
    ensures Is(raw, SEISMIC_ROLE, "observer") ==>
              HasText(values, OBSERVER_PUBLIC_ADDRESS) &&
              OBSERVER_P2P_PORT in values && values[OBSERVER_P2P_PORT].Number?
  {
    hide Check;
    TextThere(values, raw, syntax, CUSTODIAN_PARENT_URL);
    if Applies(OBSERVER_P2P_PORT, raw) {
      TextThere(values, raw, syntax, OBSERVER_PUBLIC_ADDRESS);
      ValuesAreTyped(values, raw, syntax, OBSERVER_P2P_PORT);
    }
  }

  lemma PushApplies(values: map<Key, Value>, raw: Raw, syntax: Syntax)
    requires ValuesOf(values, raw, syntax) && Is(raw, MONITORING_MODE, "push")
    ensures HasText(values, MONITORING_OPERATOR_REMOTE_WRITE_URL)
    ensures HasPath(values, MONITORING_DATA_DIR) && HasText(values, MONITORING_NODE_NAME)
    ensures Is(raw, SEISMIC_ROLE, "validator") ==> HasText(values, MONITORING_REMOTE_WRITE_URL)
  {
    hide ValuesOf;
    TextThere(values, raw, syntax, MONITORING_OPERATOR_REMOTE_WRITE_URL);
    TextThere(values, raw, syntax, MONITORING_NODE_NAME);
    PathThere(values, raw, syntax, MONITORING_DATA_DIR);
    assert Holds(Monitoring("push"), raw);
    if Holds(Validator, raw) {
      BothHolds(Validator, Monitoring("push"), raw);
      RemoteWriteApplies(values, raw, syntax);
    }
    hide ConditionOf, KindOf;
  }

  lemma RemoteWriteApplies(values: map<Key, Value>, raw: Raw, syntax: Syntax)
    requires ValuesOf(values, raw, syntax) && Holds(Both(Validator, Monitoring("push")), raw)
    ensures HasText(values, MONITORING_REMOTE_WRITE_URL)
  {
    hide ValuesOf, Holds;
    TextThere(values, raw, syntax, MONITORING_REMOTE_WRITE_URL);
  }

  lemma TlsApplies(values: map<Key, Value>, raw: Raw, syntax: Syntax)
    requires ValuesOf(values, raw, syntax) && TLS_MODE in raw && raw[TLS_MODE] in TLS_MODES
    ensures HasText(values, DOMAIN) <==> raw[TLS_MODE] in MANAGED_TLS_MODES
    ensures HasText(values, CUSTODIAN_PUBLIC_URL) <==> raw[TLS_MODE] == "external"
    ensures Is(raw, MONITORING_MODE, "pull") && raw[TLS_MODE] in PULL_TLS_MODES ==>
              HasPath(values, OPENRESTY_JWT_SECRET_PATH)
  {
    hide ValuesOf;
    TextThere(values, raw, syntax, DOMAIN);
    TextThere(values, raw, syntax, CUSTODIAN_PUBLIC_URL);
    PathThere(values, raw, syntax, OPENRESTY_JWT_SECRET_PATH);
  }

  lemma BootstrappersApply(values: map<Key, Value>, raw: Raw, syntax: Syntax)
    requires ValuesOf(values, raw, syntax)
    ensures HasBootstrappers(values)
  {
    hide Check;
    ValuesAreTyped(values, raw, syntax, SUMMIT_BOOTSTRAPPERS_FILE);
  }

  lemma MdbxCopyApplies(values: map<Key, Value>, raw: Raw, syntax: Syntax)
    requires ValuesOf(values, raw, syntax)
    ensures RETH_MDBX_COPY_PREBUILT_PATH in values ==>
              HasPath(values, RETH_MDBX_COPY_PREBUILT_PATH) && HasPath(values, RETH_PREBUILT_PATH)
  {
    hide ValuesOf;
    PathThere(values, raw, syntax, RETH_MDBX_COPY_PREBUILT_PATH);
    PathThere(values, raw, syntax, RETH_PREBUILT_PATH);
  }

  lemma PeeringApplies(values: map<Key, Value>, raw: Raw, syntax: Syntax)
    requires ValuesOf(values, raw, syntax)
    ensures HasPeering(values)
  {
    hide ValuesOf;
    TextThere(values, raw, syntax, RETH_PEERING);
    TextThere(values, raw, syntax, RETH_PEERING_ARGS);
    TextThere(values, raw, syntax, RETH_BOOTNODE);
    PathThere(values, raw, syntax, RETH_TRUSTED_PEERS_FILE);
  }

  /** The value of the bootstrappers flag. */
  function BootstrappersText(values: map<Key, Value>): string
    requires HasBootstrappers(values)
  {
    if values[SUMMIT_BOOTSTRAPPERS_FILE].NoLocation? then ""
    else UnitArguments.PathText(values[SUMMIT_BOOTSTRAPPERS_FILE].path)
  }

  predicate PeeringRule(values: map<Key, Value>, syntax: Syntax, host: Host)
    requires HasPeering(values)
  {
    var mode := values[RETH_PEERING].text;
    UnitArguments.PeeringAccepted(
      mode, values[RETH_PEERING_ARGS].text,
      if mode == "discovery" then values[RETH_BOOTNODE].text else "",
      host.file, host.nodeId, syntax.enode)
  }

  predicate ReleaseWhenDownloaded(values: map<Key, Value>, c: Component, syntax: Syntax)
    requires HasVersion(values, c)
  {
    MethodKey(c) in values && values[MethodKey(c)].text == "download" ==>
      syntax.releaseTag(values[VersionKey(c)].text)
  }

  /** A component that is downloaded is downloaded as a release. */
  predicate TaggedRelease(values: map<Key, Value>, how: Key, version: Key, syntax: Syntax) {
    how in values && values[how] == Text("download") ==>
      HasText(values, version) && syntax.releaseTag(values[version].text)
  }

  /** A stored argument is the flag with its value, a single word, or empty without one. */
  predicate StoredFlag(stored: string, flagName: string, value: string) {
    (forall i :: 0 <= i < |value| ==> !EnvGrammar.IsSpace(value[i])) &&
    if value == "" then stored == "" else stored == flagName + " " + value
  }

  predicate BootstrappersRule(values: map<Key, Value>)
    requires HasText(values, SUMMIT_BOOTSTRAPPERS_ARG) && HasBootstrappers(values)
  {
    StoredFlag(values[SUMMIT_BOOTSTRAPPERS_ARG].text, "--bootstrappers",
               match values[SUMMIT_BOOTSTRAPPERS_FILE]
               case Location(path) => UnitArguments.PathText(path)
               case _ => "")
  }

  predicate PeeringPlain(values: map<Key, Value>, syntax: Syntax, host: Host)
    requires HasPeering(values)
  {
    UnitArguments.PlainlyAccepted(
      values[RETH_PEERING].text, values[RETH_PEERING_ARGS].text,
      if values[RETH_PEERING].text == "discovery" then values[RETH_BOOTNODE].text else "",
      host.file, host.nodeId, syntax.enode)
  }

  predicate DerivedRules(values: map<Key, Value>, syntax: Syntax, host: Host)
    requires HasDerived(values)
  {
    var role, monitoring := values[SEISMIC_ROLE].text, values[MONITORING_MODE].text;
    && TaggedRelease(values, SUMMIT_INSTALL_METHOD, SUMMIT_VERSION, syntax)
    && TaggedRelease(values, RETH_INSTALL_METHOD, RETH_VERSION, syntax)
    && TaggedRelease(values, CUSTODIAN_INSTALL_METHOD, CUSTODIAN_VERSION, syntax)
    && TaggedRelease(values, CHECKPOINTER_INSTALL_METHOD, CHECKPOINTER_VERSION, syntax)
    && (RETH_MDBX_COPY_PREBUILT_PATH in values ==>
        values[RETH_MDBX_COPY_PREBUILT_PATH].path != values[RETH_PREBUILT_PATH].path)
    && PeeringPlain(values, syntax, host)
    && BootstrappersRule(values)
    && (role == "observer" ==>
        values[OBSERVER_P2P_PORT].number == syntax.portOf(values[OBSERVER_PUBLIC_ADDRESS].text)
        && monitoring != "pull"
        && (monitoring == "push" ==> values[MONITORING_OPERATOR_REMOTE_WRITE_URL].text != ""))
    && (role == "validator" ==> values[TLS_MODE].text != "disabled")
    && (monitoring == "pull" ==>
        values[TLS_MODE].text == "custodian-only" || values[TLS_MODE].text == "full" ||
        values[TLS_MODE].text == "external")
  }

  lemma ReleasedIsTagged(values: map<Key, Value>, syntax: Syntax)
    requires forall c: Component :: HasVersion(values, c)
    ensures ReleaseWhenDownloaded(values, Summit, syntax) <==>
            TaggedRelease(values, SUMMIT_INSTALL_METHOD, SUMMIT_VERSION, syntax)
    ensures ReleaseWhenDownloaded(values, Reth, syntax) <==>
            TaggedRelease(values, RETH_INSTALL_METHOD, RETH_VERSION, syntax)
    ensures ReleaseWhenDownloaded(values, Custodian, syntax) <==>
            TaggedRelease(values, CUSTODIAN_INSTALL_METHOD, CUSTODIAN_VERSION, syntax)
    ensures ReleaseWhenDownloaded(values, Checkpointer, syntax) <==>
            TaggedRelease(values, CHECKPOINTER_INSTALL_METHOD, CHECKPOINTER_VERSION, syntax)
  {
    assert HasVersion(values, Summit) && HasVersion(values, Reth);
    assert HasVersion(values, Custodian) && HasVersion(values, Checkpointer);
  }

  lemma PeeringIsPlain(values: map<Key, Value>, syntax: Syntax, host: Host)
    requires HasPeering(values)
    ensures PeeringRule(values, syntax, host) <==> PeeringPlain(values, syntax, host)
  {
    var mode := values[RETH_PEERING].text;
    UnitArguments.AcceptedIsSpelled(
      mode, values[RETH_PEERING_ARGS].text,
      if mode == "discovery" then values[RETH_BOOTNODE].text else "",
      host.file, host.nodeId, syntax.enode);
  }

  lemma FlagIsStored(values: map<Key, Value>)
    requires HasText(values, SUMMIT_BOOTSTRAPPERS_ARG) && HasBootstrappers(values)
    ensures BootstrappersRule(values) <==>
            UnitArguments.FlagArgument(values[SUMMIT_BOOTSTRAPPERS_ARG].text,
                                       UnitArguments.BOOTSTRAPPERS, BootstrappersText(values))
  {
    hide UnitArguments.PathText;
  }

  /** `_validate_derived`. */
  method ValidateDerived(values: map<Key, Value>, syntax: Syntax, host: Host)
    returns (ok: bool)
    requires HasDerived(values)
    ensures ok <==> DerivedRules(values, syntax, host)
  {
    PeeringIsPlain(values, syntax, host);
    FlagIsStored(values);
    ReleasedIsTagged(values, syntax);
    hide PeeringRule, BootstrappersText, PeeringPlain, BootstrappersRule, TaggedRelease,
         ReleaseWhenDownloaded;
    var components := [Summit, Reth, Custodian, Checkpointer];
    for i := 0 to |components|
      invariant forall j :: 0 <= j < i ==> ReleaseWhenDownloaded(values, components[j], syntax)
    {
      if !ReleaseWhenDownloaded(values, components[i], syntax) {
        return false;
      }
    }
    forall c: Component
      ensures ReleaseWhenDownloaded(values, c, syntax)
    {
      assert components[if c.Summit? then 0 else if c.Reth? then 1
                        else if c.Custodian? then 2 else 3] == c;
    }
    var role, monitoring := values[SEISMIC_ROLE].text, values[MONITORING_MODE].text;
    if RETH_MDBX_COPY_PREBUILT_PATH in values &&
       values[RETH_MDBX_COPY_PREBUILT_PATH].path == values[RETH_PREBUILT_PATH].path {
      return false;
    }
    if !PeeringRule(values, syntax, host) {
      return false;
    }
    if !UnitArguments.FlagArgument(values[SUMMIT_BOOTSTRAPPERS_ARG].text,
                                   UnitArguments.BOOTSTRAPPERS, BootstrappersText(values)) {
      return false;
    }
    if role == "observer" {
      if values[OBSERVER_P2P_PORT].number !=
         syntax.portOf(values[OBSERVER_PUBLIC_ADDRESS].text) {
        return false;
      }
      if monitoring == "pull" {
        return false;
      }
      if monitoring == "push" && values[MONITORING_OPERATOR_REMOTE_WRITE_URL].text == "" {
        return false;
      }
    }
    if role == "validator" && values[TLS_MODE].text == "disabled" {
      return false;
    }
    return monitoring != "pull" || values[TLS_MODE].text in PULL_TLS_MODES;
  }

  /**
   What an accepted configuration has for its role: metrics that are pulled are
   published with a secret, pushed ones have a destination, a validator's
   custodian has one public name or address, and the bootstrappers argument
   expands to the flag and its path or to nothing.
   */
  predicate WellConfigured(values: map<Key, Value>)
    requires HasDerived(values)
  {
    var role, monitoring := values[SEISMIC_ROLE].text, values[MONITORING_MODE].text;
    && (monitoring == "pull" ==>
        role == "validator" && HasPath(values, OPENRESTY_JWT_SECRET_PATH))
    && (monitoring == "push" ==>
        HasPath(values, MONITORING_DATA_DIR) && HasText(values, MONITORING_NODE_NAME) &&
        if role == "validator" then HasText(values, MONITORING_REMOTE_WRITE_URL)
        else values[MONITORING_OPERATOR_REMOTE_WRITE_URL].text != "")
    && (role == "validator" ==>
        HasText(values, DOMAIN) != HasText(values, CUSTODIAN_PUBLIC_URL))
    && (role == "observer" <==> CUSTODIAN_PARENT_URL in values)
    && ExpandsWell(values)
  }

  predicate ExpandsWell(values: map<Key, Value>)
    requires HasText(values, SUMMIT_BOOTSTRAPPERS_ARG) && HasBootstrappers(values)
  {
    var value := BootstrappersText(values);
    UnitArguments.Words(values[SUMMIT_BOOTSTRAPPERS_ARG].text) ==
      if value == "" then [] else ["--bootstrappers", value]
  }

  lemma AcceptedExpands(values: map<Key, Value>)
    requires HasText(values, SUMMIT_BOOTSTRAPPERS_ARG) && HasBootstrappers(values)
    requires UnitArguments.FlagArgument(values[SUMMIT_BOOTSTRAPPERS_ARG].text,
                                        UnitArguments.BOOTSTRAPPERS, BootstrappersText(values))
    ensures ExpandsWell(values)
  {
    hide BootstrappersText;
    UnitArguments.BootstrappersIsAWord();
    UnitArguments.FlagArgumentExpands(values[SUMMIT_BOOTSTRAPPERS_ARG].text,
                                      UnitArguments.BOOTSTRAPPERS, BootstrappersText(values));
  }

  lemma AcceptedConfiguration(values: map<Key, Value>, raw: Raw, syntax: Syntax, host: Host)
    requires ValuesOf(values, raw, syntax) && HasDerived(values)
    requires DerivedRules(values, syntax, host)
    ensures WellConfigured(values)
  {
    FlagIsStored(values);
    AcceptedExpands(values);
    hide ValuesOf, ConditionOf, KindOf, Holds, PeeringRule, BootstrappersText, ExpandsWell;
    BasicsApply(values, raw, syntax);
    ObserverApplies(values, raw, syntax);
    TlsApplies(values, raw, syntax);
    if Is(raw, MONITORING_MODE, "push") {
      PushApplies(values, raw, syntax);
    }
  }

  // ---------------------------------------------------------------------
  // The schema as it is documented: on validated values, in literal settings
  // ---------------------------------------------------------------------

  predicate IsText(values: map<Key, Value>, k: Key, s: string) {
    k in values && values[k] == Text(s)
  }

  predicate IsOn(values: map<Key, Value>, k: Key) {
    k in values && values[k] == Flag(true)
  }

  /** Which settings a node with these values has. */
  predicate Expected(k: Key, values: map<Key, Value>) {
    match k
    case OBSERVER_PARENT_NODE_PUBLIC_KEY | OBSERVER_INDEX | OBSERVER_PUBLIC_ADDRESS |
         OBSERVER_P2P_PORT | CUSTODIAN_PARENT_URL => IsText(values, SEISMIC_ROLE, "observer")
    case CHECKPOINTS_DIR | CHECKPOINTER_INSTALL_METHOD | CHECKPOINTER_VERSION |
         CHECKPOINTER_CONFIG_PATH => IsOn(values, CHECKPOINTER_ENABLED)
    case SUMMIT_PREBUILT_PATH => IsText(values, SUMMIT_INSTALL_METHOD, "prebuilt")
    case RETH_PREBUILT_PATH => IsText(values, RETH_INSTALL_METHOD, "prebuilt")
    case CUSTODIAN_PREBUILT_PATH => IsText(values, CUSTODIAN_INSTALL_METHOD, "prebuilt")
    case CHECKPOINTER_PREBUILT_PATH => IsText(values, CHECKPOINTER_INSTALL_METHOD, "prebuilt")
    case RETH_MDBX_COPY_PREBUILT_PATH =>
      IsOn(values, CHECKPOINTER_ENABLED) && IsText(values, RETH_INSTALL_METHOD, "prebuilt")
    case RETH_TRUSTED_PEERS_FILE => IsText(values, RETH_PEERING, "trusted")
    case RETH_BOOTNODE_RPC | RETH_BOOTNODE => IsText(values, RETH_PEERING, "discovery")
    case DOMAIN | RATE_LIMIT_RPS | RATE_LIMIT_BURST =>
      IsText(values, TLS_MODE, "custodian-only") || IsText(values, TLS_MODE, "full")
    case CUSTODIAN_PUBLIC_URL => IsText(values, TLS_MODE, "external")
    case OPENRESTY_JWT_SECRET_PATH =>
      IsText(values, TLS_MODE, "custodian-only") || IsText(values, TLS_MODE, "full") ||
      (IsText(values, TLS_MODE, "external") && IsText(values, MONITORING_MODE, "pull"))
    case MONITORING_NODE_NAME | MONITORING_DATA_DIR | MONITORING_OPERATOR_REMOTE_WRITE_URL =>
      IsText(values, MONITORING_MODE, "push")
    case MONITORING_REMOTE_WRITE_URL =>
      IsText(values, MONITORING_MODE, "push") && IsText(values, SEISMIC_ROLE, "validator")
    case _ => true
  }

  /** The value `v` of setting `k`, written as `s`. */
  predicate Reads(k: Key, s: string, v: Value, syntax: Syntax) {
    match k
    case SEISMIC_ROLE => v == Text(s) && (s == "validator" || s == "observer")
    case SUMMIT_LOG_LEVEL =>
      v == Text(s) &&
      (s == "error" || s == "warn" || s == "info" || s == "debug" || s == "trace")
    case SUMMIT_INSTALL_METHOD | RETH_INSTALL_METHOD | CUSTODIAN_INSTALL_METHOD |
         CHECKPOINTER_INSTALL_METHOD =>
      v == Text(s) && (s == "download" || s == "prebuilt" || s == "source")
    case RETH_PEERING => v == Text(s) && (s == "trusted" || s == "discovery")
    case TLS_MODE =>
      v == Text(s) && (s == "disabled" || s == "custodian-only" || s == "full" || s == "external")
    case MONITORING_MODE => v == Text(s) && (s == "off" || s == "push" || s == "pull")
    case CHECKPOINTER_ENABLED => v.Flag? && s == if v.on then "true" else "false"
    case SUMMIT_BOOTSTRAPPERS_FILE =>
      if s == "" then v == NoLocation else v.Location? && syntax.path(k, s) == Some(v.path)
    case OBSERVER_INDEX | OBSERVER_P2P_PORT | CUSTODIAN_COUNCIL_PORT | CUSTODIAN_CHAIN_ID |
         RATE_LIMIT_RPS | RATE_LIMIT_BURST => v.Number? && syntax.number(k, s) == Some(v.number)
    case RETH_DATA_DIR | SUMMIT_DATA_DIR | KEYS_DIR | RETH_P2P_KEY_PATH | SUMMIT_KEYS_DIR |
         SUMMIT_CRITICAL_LOG_DIR | SUMMIT_PREBUILT_PATH | RETH_PREBUILT_PATH |
         RETH_MDBX_COPY_PREBUILT_PATH | GENESIS_PATH | RETH_TRUSTED_PEERS_FILE |
         RETH_ENGINE_IPC | CUSTODIAN_DATA_DIR | CUSTODIAN_PREBUILT_PATH | CUSTODIAN_SOCKET |
         CHECKPOINTS_DIR | CHECKPOINTER_PREBUILT_PATH | CHECKPOINTER_CONFIG_PATH |
         OPENRESTY_JWT_SECRET_PATH | MONITORING_DATA_DIR =>
      v.Location? && syntax.path(k, s) == Some(v.path)
    case _ => v == Text(s) && syntax.matches(k, s)
  }

  predicate ReadsAs(kind: Kind, k: Key, s: string, v: Value, syntax: Syntax) {
    match kind
    case Choice(choices) => v == Text(s) && s in choices
    case Boolean => v.Flag? && s == if v.on then "true" else "false"
    case Place => v.Location? && syntax.path(k, s) == Some(v.path)
    case OptionalPlace =>
      if s == "" then v == NoLocation else v.Location? && syntax.path(k, s) == Some(v.path)
    case Count => v.Number? && syntax.number(k, s) == Some(v.number)
    case Pattern => v == Text(s) && syntax.matches(k, s)
  }

  lemma ReadsByKind(k: Key, s: string, v: Value, syntax: Syntax)
    ensures Reads(k, s, v, syntax) <==> ReadsAs(KindOf(k), k, s, v, syntax)
  {
  }

  lemma CheckByKind(k: Key, s: string, v: Value, syntax: Syntax)
    ensures Check(k, s, syntax) == Some(v) <==> ReadsAs(KindOf(k), k, s, v, syntax)
  {
    hide KindOf;
  }

  lemma CheckReads(k: Key, s: string, v: Value, syntax: Syntax)
    ensures Check(k, s, syntax) == Some(v) <==> Reads(k, s, v, syntax)
  {
    hide Check, Reads, KindOf, ReadsAs;
    ReadsByKind(k, s, v, syntax);
    CheckByKind(k, s, v, syntax);
  }

  /** Exactly the documented settings, each with the value it is written as. */
  ghost predicate Documented(values: map<Key, Value>, raw: Raw, syntax: Syntax) {
    (forall k :: k in values <==> Expected(k, values)) &&
    forall k :: k in values ==> k in raw && Reads(k, raw[k], values[k], syntax)
  }

  /** A setting that conditions look at. */
  predicate Input(k: Key) {
    k.SEISMIC_ROLE? || k.MONITORING_MODE? || k.RETH_PEERING? || k.TLS_MODE? ||
    k.SUMMIT_INSTALL_METHOD? || k.RETH_INSTALL_METHOD? || k.CUSTODIAN_INSTALL_METHOD? ||
    k.CHECKPOINTER_INSTALL_METHOD?
  }

  /** The inputs of conditions read the same as they are written. */
  ghost predicate InputsRead(values: map<Key, Value>, raw: Raw) {
    && (forall k :: Input(k) && k in values ==> k in raw && values[k] == Text(raw[k]))
    && (forall k :: Input(k) && k != CHECKPOINTER_INSTALL_METHOD ==> k in values)
    && (CHECKPOINTER_INSTALL_METHOD in values <==> IsOn(values, CHECKPOINTER_ENABLED))
    && (IsOn(values, CHECKPOINTER_ENABLED) <==> Is(raw, CHECKPOINTER_ENABLED, "true"))
  }

  lemma InputIs(values: map<Key, Value>, raw: Raw, k: Key, s: string)
    requires InputsRead(values, raw) && Input(k) && k != CHECKPOINTER_INSTALL_METHOD
    ensures Is(raw, k, s) <==> IsText(values, k, s)
    ensures k in raw && k in values && values[k] == Text(raw[k])
  {
  }

  /** A condition, judged by validated values. */
  predicate HoldsIn(c: Condition, values: map<Key, Value>) {
    match c
    case Always => true
    case Observer => IsText(values, SEISMIC_ROLE, "observer")
    case Validator => IsText(values, SEISMIC_ROLE, "validator")
    case Checkpointing => IsOn(values, CHECKPOINTER_ENABLED)
    case Prebuilt(component) => IsText(values, MethodKey(component), "prebuilt")
    case TlsManaged =>
      IsText(values, TLS_MODE, "custodian-only") || IsText(values, TLS_MODE, "full")
    case TlsExternal => IsText(values, TLS_MODE, "external")
    case JwtSecretNeeded =>
      IsText(values, TLS_MODE, "custodian-only") || IsText(values, TLS_MODE, "full") ||
      (IsText(values, TLS_MODE, "external") && IsText(values, MONITORING_MODE, "pull"))
    case Monitoring(mode) => IsText(values, MONITORING_MODE, mode)
    case Peering(mode) => IsText(values, RETH_PEERING, mode)
    case Both(first, second) => HoldsIn(first, values) && HoldsIn(second, values)
  }

  lemma BothHoldIn(first: Condition, second: Condition, values: map<Key, Value>)
    ensures HoldsIn(Both(first, second), values) <==>
            HoldsIn(first, values) && HoldsIn(second, values)
  {
  }

  lemma ExpectedByCondition(k: Key, values: map<Key, Value>)
    requires CHECKPOINTER_INSTALL_METHOD in values ==> IsOn(values, CHECKPOINTER_ENABLED)
    ensures Expected(k, values) <==> HoldsIn(ConditionOf(k), values)
  {
    BothHoldIn(Checkpointing, Prebuilt(Reth), values);
    BothHoldIn(Checkpointing, Prebuilt(Checkpointer), values);
    BothHoldIn(Validator, Monitoring("push"), values);
    assert IsText(values, CHECKPOINTER_INSTALL_METHOD, "prebuilt") ==>
        IsOn(values, CHECKPOINTER_ENABLED);
    hide IsText, IsOn;
  }

  lemma SimpleRead(values: map<Key, Value>, raw: Raw, c: Condition)
    requires InputsRead(values, raw) && !c.Both? && c != Prebuilt(Checkpointer)
    ensures HoldsIn(c, values) <==> Holds(c, raw)
  {
    match c
    case Observer => InputIs(values, raw, SEISMIC_ROLE, "observer");
    case Validator => InputIs(values, raw, SEISMIC_ROLE, "validator");
    case Prebuilt(component) => InputIs(values, raw, MethodKey(component), "prebuilt");
    case Monitoring(mode) => InputIs(values, raw, MONITORING_MODE, mode);
    case Peering(mode) => InputIs(values, raw, RETH_PEERING, mode);
    case TlsExternal => InputIs(values, raw, TLS_MODE, "external");
    case TlsManaged => InputIs(values, raw, TLS_MODE, "full");
    case JwtSecretNeeded =>
      InputIs(values, raw, TLS_MODE, "external");
      InputIs(values, raw, MONITORING_MODE, "pull");
    case _ =>
  }

  lemma BothRead(values: map<Key, Value>, raw: Raw, first: Condition, second: Condition)
    requires InputsRead(values, raw)
    requires first == Checkpointing || first == Validator
    requires first == Checkpointing || second != Prebuilt(Checkpointer)
    requires !second.Both?
    ensures HoldsIn(Both(first, second), values) <==> Holds(Both(first, second), raw)
  {
    BothHoldIn(first, second, values);
    BothHolds(first, second, raw);
    SimpleRead(values, raw, first);
    if second == Prebuilt(Checkpointer) {
      assert Input(CHECKPOINTER_INSTALL_METHOD);
    } else {
      SimpleRead(values, raw, second);
    }
  }

  /** Two of the conditions need another one first; the last method is only read so. */
  lemma ConditionShape(k: Key)
    ensures ConditionOf(k) != Prebuilt(Checkpointer)
    ensures ConditionOf(k).Both? ==>
              var first, second := ConditionOf(k).first, ConditionOf(k).second;
              && (first == Checkpointing || first == Validator) && !second.Both?
              && (first == Checkpointing || second != Prebuilt(Checkpointer))
  {
  }

  lemma ExpectedIsApplicable(values: map<Key, Value>, raw: Raw, k: Key)
    requires InputsRead(values, raw)
    ensures Expected(k, values) <==> Applies(k, raw)
  {
    ExpectedByCondition(k, values);
    ConditionShape(k);
    hide ConditionOf, Expected, HoldsIn, Holds, InputsRead;
    if ConditionOf(k).Both? {
      BothRead(values, raw, ConditionOf(k).first, ConditionOf(k).second);
    } else {
      SimpleRead(values, raw, ConditionOf(k));
    }
  }

  lemma InputReads(k: Key, s: string, v: Value, syntax: Syntax)
    requires Reads(k, s, v, syntax)
    ensures Input(k) ==> v == Text(s)
    ensures k == CHECKPOINTER_ENABLED ==> (v == Flag(true) <==> s == "true")
  {
  }

  lemma ValuesAreRead(values: map<Key, Value>, raw: Raw, syntax: Syntax)
    requires ValuesOf(values, raw, syntax)
    ensures forall k :: k in values ==> k in raw && Reads(k, raw[k], values[k], syntax)
    ensures InputsRead(values, raw)
  {
    hide Check, Reads, Holds, ConditionOf;
    forall k | k in values
      ensures k in raw && Reads(k, raw[k], values[k], syntax)
      ensures Input(k) ==> values[k] == Text(raw[k])
      ensures k == CHECKPOINTER_ENABLED ==> (values[k] == Flag(true) <==> raw[k] == "true")
    {
      assert Accepts(k, raw, syntax);
      CheckReads(k, raw[k], values[k], syntax);
      InputReads(k, raw[k], values[k], syntax);
    }
    InputsApply(raw);
    hide Applies, Input;
    assert CHECKPOINTER_ENABLED in values;
  }

  lemma InputsApply(raw: Raw)
    ensures forall k :: Input(k) && k != CHECKPOINTER_INSTALL_METHOD ==> Applies(k, raw)
    ensures Applies(CHECKPOINTER_ENABLED, raw)
    ensures Applies(CHECKPOINTER_INSTALL_METHOD, raw) <==> Is(raw, CHECKPOINTER_ENABLED, "true")
  {
  }

  lemma DocumentedInputs(values: map<Key, Value>, raw: Raw, syntax: Syntax)
    requires Documented(values, raw, syntax)
    ensures InputsRead(values, raw)
  {
    InputsExpected(values);
    hide Reads, Expected;
    forall k | k in values
      ensures Input(k) ==> values[k] == Text(raw[k])
      ensures k == CHECKPOINTER_ENABLED ==> (values[k] == Flag(true) <==> raw[k] == "true")
    {
      InputReads(k, raw[k], values[k], syntax);
    }
  }

  lemma InputsExpected(values: map<Key, Value>)
    ensures forall k :: Input(k) && k != CHECKPOINTER_INSTALL_METHOD ==> Expected(k, values)
    ensures Expected(CHECKPOINTER_ENABLED, values)
    ensures Expected(CHECKPOINTER_INSTALL_METHOD, values) <==> IsOn(values, CHECKPOINTER_ENABLED)
  {
  }

  /** The schema's table, conditions and validators, is the documented one. */
  lemma SchemaAsDocumented(values: map<Key, Value>, raw: Raw, syntax: Syntax)
    ensures ValuesOf(values, raw, syntax) <==> Documented(values, raw, syntax)
  {
    hide Check, Reads, Expected, Applies, Input;
    if ValuesOf(values, raw, syntax) {
      ValuesAreRead(values, raw, syntax);
      hide ValuesOf;
      forall k
        ensures k in values <==> Expected(k, values)
      {
        ExpectedIsApplicable(values, raw, k);
        assert k in values <==> Applies(k, raw) by {
          ValuesAreApplicable(values, raw, syntax, k);
        }
      }
    }
    if Documented(values, raw, syntax) {
      DocumentedInputs(values, raw, syntax);
      hide InputsRead;
      forall k
        ensures k in values <==> Applies(k, raw)
      {
        ExpectedIsApplicable(values, raw, k);
      }
      forall k | k in values
        ensures Accepts(k, raw, syntax) && values[k] == Check(k, raw[k], syntax).value
      {
        CheckReads(k, raw[k], values[k], syntax);
      }
    }
  }

  lemma ValuesAreApplicable(values: map<Key, Value>, raw: Raw, syntax: Syntax, k: Key)
    requires ValuesOf(values, raw, syntax)
    ensures k in values <==> Applies(k, raw)
  {
  }

  /** A blank monitoring mode is "push" for a validator and "off" for an observer. */
  ghost function WithMode(given: Raw): Raw {
    if MONITORING_MODE in given && given[MONITORING_MODE] == "" then
      given[MONITORING_MODE :=
        if SEISMIC_ROLE in given && given[SEISMIC_ROLE] == "validator" then "push"
        else if SEISMIC_ROLE in given && given[SEISMIC_ROLE] == "observer" then "off"
        else ""]
    else given
  }

  lemma ResolvedIsWithMode(given: Raw)
    ensures Resolved(given) == WithMode(given)
  {
  }

  /** The values of this environment, satisfying every rule. */
  ghost predicate Acceptable(values: map<Key, Value>, given: Raw, syntax: Syntax, host: Host) {
    Documented(values, WithMode(given), syntax) && HasLayout(values) && LayoutRules(values) &&
    HasDerived(values) && DerivedRules(values, syntax, host)
  }

  /** An environment has at most one validated form. */
  lemma ValuesAreUnique(given: Raw, syntax: Syntax, v: map<Key, Value>, w: map<Key, Value>)
    requires ValuesOf(v, Resolved(given), syntax) && ValuesOf(w, Resolved(given), syntax)
    ensures v == w
  {
    assert AgreeWhereApplicable(given, given);
    hide Resolved, ValuesOf;
    InapplicableKeysDoNotMatter(given, given, syntax);
  }

  lemma ValuesAreValid(values: map<Key, Value>, raw: Raw, syntax: Syntax)
    requires ValuesOf(values, raw, syntax)
    ensures ValidKeys(raw, syntax)
  {
    hide Check, Applies, Accepts;
  }

  /** `_validate`: keys, layout, derived rules, and nothing else decides. */
  method Validate(given: Raw, unknown: set<string>, syntax: Syntax, host: Host)
    returns (r: Option<map<Key, Value>>)
    ensures r.Some? ==> unknown == {} && Acceptable(r.value, given, syntax, host)
    ensures r.Some? ==> WellConfigured(r.value)
    ensures r.Some? ==>
              PairwiseApart([r.value[RETH_DATA_DIR].path, r.value[SUMMIT_DATA_DIR].path,
                             r.value[SUMMIT_KEYS_DIR].path])
    ensures r.None? ==>
              unknown != {} || forall v :: !Acceptable(v, given, syntax, host)
  {
    hide Check, Applies, Accepts, HasDerived, DerivedRules, ValuesOf, LayoutRules, Resolved,
         ValidKeys, WellConfigured, Documented, WithMode;
    ghost var raw := Resolved(given);
    ResolvedIsWithMode(given);
    forall v: map<Key, Value>
      ensures ValuesOf(v, raw, syntax) <==> Documented(v, WithMode(given), syntax)
    {
      SchemaAsDocumented(v, raw, syntax);
    }
    forall v | ValuesOf(v, raw, syntax)
      ensures ValidKeys(raw, syntax)
    {
      ValuesAreValid(v, raw, syntax);
    }
    var values := ValidateKeys(given, unknown, syntax);
    if values.None? {
      return None;
    }
    forall v | ValuesOf(v, raw, syntax)
      ensures v == values.value
    {
      ValuesAreUnique(given, syntax, v, values.value);
    }
    LayoutKeysApply(values.value, raw, syntax);
    DerivedKeysApply(values.value, raw, syntax);
    var ok := ValidateLayout(values.value);
    if !ok {
      return None;
    }
    ok := ValidateDerived(values.value, syntax, host);
    if ok {
      AcceptedConfiguration(values.value, raw, syntax, host);
    }
    return if ok then values else None;
  }
}
