/**
 Starting and stopping the node's units. The service manager is adversarial: a
 query may fail, a start may fail or leave the unit in any state, a stop may
 fail. Every request is recorded with the unit states it was issued in.
 */
module Systemd {
  import opened Base

  type Program = string

  datatype UnitState =
    Active | Inactive | Failed | Activating | Deactivating | Reloading | Missing

  datatype Request =
    | StartRequest(unit: Program, before: map<Program, UnitState>)
    | StopRequest(unit: Program, before: map<Program, UnitState>)

  datatype ServiceError = ServiceError

  function StateIn(states: map<Program, UnitState>, u: Program): UnitState {
    if u in states then states[u] else Missing
  }

  predicate Running(states: map<Program, UnitState>, u: Program) {
    StateIn(states, u).Active?
  }

  /** A process may be alive: neither stopped nor missing. */
  predicate Alive(states: map<Program, UnitState>, u: Program) {
    var s := StateIn(states, u);
    !s.Inactive? && !s.Failed? && !s.Missing?
  }

  /** Installed and in no transition: such a unit is running or may be started. */
  predicate Startable(states: map<Program, UnitState>, u: Program) {
    var s := StateIn(states, u);
    s.Active? || s.Inactive? || s.Failed?
  }

  /** Pairs of a unit and a unit it needs. */
  type Needs = set<(Program, Program)>

  /** Every live unit has what it needs running. */
  ghost predicate Closed(needs: Needs, states: map<Program, UnitState>) {
    forall a, b :: (a, b) in needs && Alive(states, a) ==> Running(states, b)
  }

  /** Each unit comes after everything it needs. */
  ghost predicate StartOrder(needs: Needs, order: seq<Program>) {
    forall i, b :: 0 <= i < |order| && (order[i], b) in needs ==> b in order[..i]
  }

  /** Each unit comes after everything that needs it. */
  ghost predicate StopOrder(needs: Needs, order: seq<Program>) {
    forall i, a :: 0 <= i < |order| && (a, order[i]) in needs ==> a in order[..i]
  }

  /** The request finds, and a start or stop keeps, a closed set of live units. */
  ghost predicate Orderly(needs: Needs, r: Request) {
    Closed(needs, r.before) &&
    match r
    case StartRequest(u, before) => forall b :: (u, b) in needs ==> Running(before, b)
    case StopRequest(u, before) => forall a :: (a, u) in needs && a != u ==> !Alive(before, a)
  }

  /** Other units are as they were. */
  predicate OthersSame(before: map<Program, UnitState>, after: map<Program, UnitState>, u: Program) {
    after - {u} == before - {u}
  }

  /** The service manager. */
  class Manager {
    var states: map<Program, UnitState>
    ghost var log: seq<Request>
    /** Commands that failed, or did not do what they were to do. */
    ghost var faults: nat

    constructor (states: map<Program, UnitState>)
      ensures this.states == states && log == [] && faults == 0
    {
      this.states := states;
      log := [];
      faults := 0;
    }

    /** `systemctl show`, which may fail. */
    method Status(name: Program) returns (r: Option<UnitState>)
      modifies this`faults
      ensures r.Some? ==> r.value == StateIn(states, name)
      ensures faults == old(faults) + if r.None? then 1 else 0
    {
      var fails: bool := *;
      if fails {
        faults := faults + 1;
        return None;
      }
      return Some(StateIn(states, name));
    }

    /** `systemctl reset-failed` on a failed unit; its outcome is ignored. */
    method ResetFailed(name: Program)
      requires StateIn(states, name).Failed?
      modifies this`states
      ensures states == old(states) || states == old(states)[name := Inactive]
    {
      var works: bool := *;
      if works {
        states := states[name := Inactive];
      }
    }

    /** `systemctl start`: whatever it reports, the unit may be in any state. */
    method Start(name: Program) returns (ok: bool)
      modifies this
      ensures log == old(log) + [StartRequest(name, old(states))]
      ensures OthersSame(old(states), states, name)
      ensures faults == old(faults) + if ok && Running(states, name) then 0 else 1
    {
      log := log + [StartRequest(name, states)];
      var after: UnitState := *;
      ok := *;
      states := states[name := after];
      if !ok || !after.Active? {
        faults := faults + 1;
      }
    }

    /** `systemctl stop`: success means the unit is stopped. */
    method Stop(name: Program) returns (ok: bool)
      modifies this
      ensures log == old(log) + [StopRequest(name, old(states))]
      ensures OthersSame(old(states), states, name)
      ensures ok ==> !Alive(states, name)
      ensures faults == old(faults) + if ok then 0 else 1
    {
      log := log + [StopRequest(name, states)];
      ok := *;
      if ok {
        var failed: bool := *;
        states := states[name := if failed then Failed else Inactive];
      } else {
        var after: UnitState := *;
        states := states[name := after];
        faults := faults + 1;
      }
    }
  }

  lemma OthersState(before: map<Program, UnitState>, after: map<Program, UnitState>,
                    u: Program, v: Program)
    requires OthersSame(before, after, u) && v != u
    ensures StateIn(after, v) == StateIn(before, v)
  {
    assert v in before <==> v in before - {u};
    assert v in after <==> v in after - {u};
    if v in before {
      assert (after - {u})[v] == (before - {u})[v];
    }
  }

  lemma OthersRunning(before: map<Program, UnitState>, after: map<Program, UnitState>, u: Program)
    requires OthersSame(before, after, u)
    ensures forall v :: v != u ==> StateIn(after, v) == StateIn(before, v)
    ensures forall v :: v != u ==>
              Alive(after, v) == Alive(before, v) && Running(after, v) == Running(before, v)
  {
    forall v | v != u
      ensures StateIn(after, v) == StateIn(before, v)
    {
      OthersState(before, after, u, v);
    }
  }

  /** `require_stopped` with missing units allowed. */
  method RequireStopped(m: Manager, names: seq<Program>) returns (ok: bool)
    modifies m`faults
    ensures ok ==> forall i :: 0 <= i < |names| ==> !Alive(m.states, names[i])
    ensures !ok ==> m.faults > old(m.faults) || exists u :: u in names && Alive(m.states, u)
    ensures m.faults >= old(m.faults)
  {
    ok := true;
    for i := 0 to |names|
      invariant m.faults >= old(m.faults)
      invariant ok ==> forall j :: 0 <= j < i ==> !Alive(m.states, names[j])
      invariant !ok ==> exists u :: u in names && Alive(m.states, u)
    {
      var status := m.Status(names[i]);
      if status.None? {
        return false;
      }
      var s := status.value;
      if !s.Missing? && !s.Inactive? && !s.Failed? {
        assert names[i] in names && Alive(m.states, names[i]);
        ok := false;
      }
    }
  }

  /**
   `start_service`. `requested` tells whether a start was issued, which the
   caller then owns even when this fails.
   */
  method StartService(m: Manager, name: Program)
    returns (r: Result<bool, ServiceError>, requested: bool)
    modifies m
    ensures OthersSame(old(m.states), m.states, name)
    ensures r.Ok? ==> Running(m.states, name) && r.value == requested
    ensures r.Err? ==> m.faults > old(m.faults) || !Startable(old(m.states), name)
    ensures m.faults >= old(m.faults)
    ensures requested ==> !Alive(old(m.states), name)
    ensures !requested ==> m.states == old(m.states)
    ensures if requested then
              exists before :: m.log == old(m.log) + [StartRequest(name, before)] &&
                               OthersSame(old(m.states), before, name) && !Alive(before, name)
            else m.log == old(m.log)
  {
    var before := m.Status(name);
    if before.None? || before.value.Missing? {
      return Err(ServiceError), false;
    }
    if before.value.Active? {
      return Ok(false), false;
    }
    if !before.value.Inactive? && !before.value.Failed? {
      return Err(ServiceError), false;
    }
    if before.value.Failed? {
      m.ResetFailed(name);
    }
    assert OthersSame(old(m.states), m.states, name) && !Alive(m.states, name);
    var ok := m.Start(name);
    requested := true;
    if !ok {
      return Err(ServiceError), true;
    }
    var after := m.Status(name);
    if after.None? || !after.value.Active? {
      return Err(ServiceError), true;
    }
    return Ok(true), true;
  }

  /** `stop_service` */
  method StopService(m: Manager, name: Program) returns (r: Result<bool, ServiceError>)
    modifies m
    ensures OthersSame(old(m.states), m.states, name)
    ensures r.Ok? ==> !Alive(m.states, name) && r.value == Alive(old(m.states), name)
    ensures m.faults == old(m.faults) + if r.Err? then 1 else 0
    ensures !Alive(old(m.states), name) ==> m.states == old(m.states)
    ensures (m.log == old(m.log) && m.states == old(m.states)) ||
            (m.log == old(m.log) + [StopRequest(name, old(m.states))] && Alive(old(m.states), name))
  {
    var current := m.Status(name);
    if current.None? {
      return Err(ServiceError);
    }
    if current.value.Missing? || current.value.Inactive? || current.value.Failed? {
      return Ok(false);
    }
    var ok := m.Stop(name);
    if !ok {
      return Err(ServiceError);
    }
    return Ok(true);
  }

  // ---------------------------------------------------------------------
  // Starting a node
  // ---------------------------------------------------------------------

  /** The bookkeeping of a partial start from the states `initial`. */
  ghost predicate Owned(needs: Needs, initial: map<Program, UnitState>,
                        now: map<Program, UnitState>, started: seq<Program>)
  {
    && (forall u :: u !in started ==> Alive(now, u) == Alive(initial, u))
    && (forall u :: u !in started && Running(initial, u) ==> Running(now, u))
    && (forall i :: 0 <= i < |started| ==> !Alive(initial, started[i]))
    && (forall i, j :: 0 <= i <= j < |started| ==> (started[i], started[j]) !in needs)
  }

  /** All requests since `mark` were orderly. */
  ghost predicate OrderlySince(needs: Needs, log: seq<Request>, mark: nat) {
    mark <= |log| && forall i :: mark <= i < |log| ==> Orderly(needs, log[i])
  }

  /** No request since `mark` stopped a unit that was alive at first. */
  predicate SparesLive(initial: map<Program, UnitState>, log: seq<Request>, mark: nat) {
    mark <= |log| &&
    forall i :: mark <= i < |log| && log[i].StopRequest? ==> !Alive(initial, log[i].unit)
  }

  /** No unit needs itself. */
  ghost predicate Irreflexive(needs: Needs) {
    forall a, b :: (a, b) in needs ==> a != b
  }

  lemma ClosedOthers(needs: Needs, before: map<Program, UnitState>,
                     after: map<Program, UnitState>, u: Program)
    requires Closed(needs, before) && OthersSame(before, after, u) && Irreflexive(needs)
    requires Alive(after, u) ==> forall b :: (u, b) in needs ==> Running(before, b)
    requires Running(after, u) || forall a :: (a, u) in needs ==> !Alive(before, a)
    ensures Closed(needs, after)
  {
    OthersRunning(before, after, u);
  }

  /** One `start_service` inside `start_node`, everything before it running. */
  method StartNext(m: Manager, name: Program, ghost needs: Needs,
                   ghost initial: map<Program, UnitState>, started: seq<Program>,
                   ghost mark: nat)
    returns (r: Result<bool, ServiceError>, started': seq<Program>)
    requires Irreflexive(needs)
    requires Owned(needs, initial, m.states, started)
    requires OrderlySince(needs, m.log, mark) && SparesLive(initial, m.log, mark)
    requires Closed(needs, m.states)
    requires forall b :: (name, b) in needs ==> Running(m.states, b)
    requires forall i :: 0 <= i < |started| ==> Running(m.states, started[i])
    modifies m
    ensures Owned(needs, initial, m.states, started')
    ensures OrderlySince(needs, m.log, mark) && SparesLive(initial, m.log, mark)
    ensures Closed(needs, m.states)
    ensures r.Ok? ==> Running(m.states, name)
    ensures OthersSame(old(m.states), m.states, name)
    ensures started' == started || started' == started + [name]
    ensures started' == started ==> m.states == old(m.states)
    ensures r.Err? ==> m.faults > old(m.faults) || !Startable(old(m.states), name)
    ensures m.faults >= old(m.faults)
    ensures r.Ok? ==> forall i :: 0 <= i < |started'| ==> Running(m.states, started'[i])
  {
    hide Closed, Owned, Orderly;
    var requested;
    ghost var before := m.states;
    ghost var log := m.log;
    r, requested := StartService(m, name);
    started' := if requested then started + [name] else started;
    OthersRunning(before, m.states, name);
    if requested {
      ghost var asked :| m.log == log + [StartRequest(name, asked)] &&
                         OthersSame(before, asked, name) && !Alive(asked, name);
      StartRequested(needs, initial, before, asked, m.states, started, name);
    }
  }

  /** What issuing the start and its outcome do to the bookkeeping. */
  lemma StartRequested(needs: Needs, initial: map<Program, UnitState>,
                       before: map<Program, UnitState>, asked: map<Program, UnitState>,
                       now: map<Program, UnitState>, started: seq<Program>, name: Program)
    requires Irreflexive(needs) && Closed(needs, before)
    requires Owned(needs, initial, before, started)
    requires forall b :: (name, b) in needs ==> Running(before, b)
    requires forall i :: 0 <= i < |started| ==> Running(before, started[i])
    requires OthersSame(before, asked, name) && !Alive(asked, name)
    requires OthersSame(before, now, name) && !Alive(before, name)
    ensures Orderly(needs, StartRequest(name, asked))
    ensures Closed(needs, now) && Owned(needs, initial, now, started + [name])
  {
    OthersRunning(before, now, name);
    OthersRunning(before, asked, name);
    NoLiveDependentsUnlessRunning(needs, before, name);
    ClosedOthers(needs, before, asked, name);
    ClosedOthers(needs, before, now, name);
  }

  lemma NoLiveDependentsUnlessRunning(needs: Needs, states: map<Program, UnitState>, u: Program)
    requires Closed(needs, states)
    ensures Running(states, u) || forall a :: (a, u) in needs ==> !Alive(states, a)
  {
  }

  /** The part of `started` that has not been unwound. */
  ghost predicate Unwinding(needs: Needs, initial: map<Program, UnitState>,
                            now: map<Program, UnitState>, started: seq<Program>, k: nat)
  {
    && k <= |started|
    && Closed(needs, now)
    && (forall i :: k <= i < |started| ==> !Alive(now, started[i]))
  }

  /** Nothing alive depends on the started unit to be stopped next. */
  lemma NextToStop(needs: Needs, initial: map<Program, UnitState>,
                   now: map<Program, UnitState>, started: seq<Program>, k: nat)
    requires Closed(needs, initial) && Owned(needs, initial, now, started)
    requires 0 < k && Unwinding(needs, initial, now, started, k)
    ensures forall a :: (a, started[k - 1]) in needs ==> !Alive(now, a)
  {
    var u := started[k - 1];
    forall a | (a, u) in needs
      ensures !Alive(now, a)
    {
      if a in started {
        var i :| 0 <= i < |started| && started[i] == a;
        assert i >= k;
      } else {
        assert !Alive(initial, u);
      }
    }
  }

  /** The unwinding in `start_node`: stop what was started, in reverse order. */
  method Unwind(m: Manager, started: seq<Program>, ghost needs: Needs,
                ghost initial: map<Program, UnitState>, ghost mark: nat)
    returns (errors: nat)
    requires Irreflexive(needs) && Closed(needs, initial) && Closed(needs, m.states)
    requires Owned(needs, initial, m.states, started)
    requires OrderlySince(needs, m.log, mark) && SparesLive(initial, m.log, mark)
    modifies m
    ensures SparesLive(initial, m.log, mark)
    ensures m.faults == old(m.faults) + errors
    ensures Owned(needs, initial, m.states, started)
    ensures errors == 0 ==>
              Closed(needs, m.states) && OrderlySince(needs, m.log, mark) &&
              forall u :: Alive(m.states, u) == Alive(initial, u)
  {
    errors := 0;
    var k: nat := |started|;
    while k > 0
      invariant k <= |started|
      invariant m.faults == old(m.faults) + errors
      invariant SparesLive(initial, m.log, mark)
      invariant Owned(needs, initial, m.states, started)
      invariant errors == 0 ==> Unwinding(needs, initial, m.states, started, k)
      invariant errors == 0 ==> OrderlySince(needs, m.log, mark)
    {
      k := k - 1;
      var name := started[k];
      ghost var before, log := m.states, m.log;
      if errors == 0 {
        NextToStop(needs, initial, before, started, k + 1);
      }
      var r := StopService(m, name);
      OthersRunning(before, m.states, name);
      if r.Err? {
        errors := errors + 1;
      }
      if errors == 0 {
        ClosedOthers(needs, before, m.states, name);
      }
    }
  }

  /** The units `start_node` starts, in dependency order. */
  ghost function NodeSequence(custodian: Program, summit: Program, checkpointer: bool): seq<Program> {
    [custodian, "reth", summit] + if checkpointer then ["checkpointer"] else []
  }

  /** A conflicting unit is alive, or a unit of the sequence is missing or in transition. */
  predicate MayNotStart(states: map<Program, UnitState>, sequence: seq<Program>,
                        conflicting: Program)
  {
    Alive(states, conflicting) || Alive(states, "summit-deposit-rpc") ||
    exists u :: u in sequence && !Startable(states, u)
  }

  lemma NothingStarted(needs: Needs, initial: map<Program, UnitState>, log: seq<Request>)
    ensures Owned(needs, initial, initial, [])
    ensures OrderlySince(needs, log, |log|) && SparesLive(initial, log, |log|)
  {
  }

  /** A running unit was alive at first or has been started. */
  lemma RunningIsAccounted(needs: Needs, initial: map<Program, UnitState>,
                           now: map<Program, UnitState>, started: seq<Program>, u: Program)
    requires Owned(needs, initial, now, started) && Running(now, u)
    ensures !Alive(initial, u) ==> u in started
  {
  }

  lemma StartedWereDown(needs: Needs, initial: map<Program, UnitState>,
                        now: map<Program, UnitState>, started: seq<Program>)
    requires Owned(needs, initial, now, started)
    ensures forall u :: u in started ==> !Alive(initial, u)
  {
  }

  /** `require_service` for every unit of the sequence: each one is installed. */
  method RequireServices(m: Manager, sequence: seq<Program>) returns (ok: bool)
    modifies m`faults
    ensures m.faults >= old(m.faults)
    ensures ok ==> forall u :: u in sequence ==> !StateIn(m.states, u).Missing?
    ensures !ok ==> m.faults > old(m.faults) ||
                    exists u :: u in sequence && StateIn(m.states, u).Missing?
  {
    for i := 0 to |sequence|
      invariant m.faults >= old(m.faults)
      invariant forall j :: 0 <= j < i ==> !StateIn(m.states, sequence[j]).Missing?
    {
      assert sequence[i] in sequence;
      var status := m.Status(sequence[i]);
      if status.None? || status.value.Missing? {
        return false;
      }
    }
    return true;
  }

  /**
   `start_node`. On success every unit of the sequence is running. On failure,
   provided every stop succeeded, the live units are those that were alive
   before the call. No unit alive before the call is sent a stop. From a closed
   state every request is made in, and leads to, a closed state. With no needs
   given every state is closed, so the first three hold of every call. It fails
   only when a command failed or the units did not allow a start to begin with.
   */
  method StartNode(m: Manager, summit: Program, conflicting: Program, checkpointer: bool,
                   custodian: Program, ghost needs: Needs)
    returns (r: Result<seq<Program>, ServiceError>, cleanupErrors: nat)
    requires Irreflexive(needs) && Closed(needs, m.states)
    requires StartOrder(needs, NodeSequence(custodian, summit, checkpointer))
    modifies m
    ensures r.Ok? ==> forall u :: u in NodeSequence(custodian, summit, checkpointer) ==>
              Running(m.states, u)
    ensures r.Ok? ==> forall u :: u in r.value <==>
              u in NodeSequence(custodian, summit, checkpointer) && !Alive(old(m.states), u)
    ensures r.Ok? ==> !Alive(old(m.states), conflicting) &&
                      !Alive(old(m.states), "summit-deposit-rpc")
    ensures r.Err? && cleanupErrors == 0 ==>
              forall u :: Alive(m.states, u) == Alive(old(m.states), u)
    ensures r.Err? && m.faults == old(m.faults) ==>
              MayNotStart(old(m.states), NodeSequence(custodian, summit, checkpointer), conflicting)
    ensures SparesLive(old(m.states), m.log, |old(m.log)|)
    ensures cleanupErrors == 0 ==>
              Closed(needs, m.states) && OrderlySince(needs, m.log, |old(m.log)|)
  {
    hide Owned, OrderlySince, SparesLive, Closed, OthersSame;
    ghost var initial, mark := m.states, |m.log|;
    NothingStarted(needs, initial, m.log);
    cleanupErrors := 0;
    var sequence := [custodian, "reth", summit];
    if checkpointer {
      sequence := sequence + ["checkpointer"];
    }
    assert sequence == NodeSequence(custodian, summit, checkpointer);
    var clear := RequireStopped(m, [conflicting, "summit-deposit-rpc"]);
    if !clear {
      return Err(ServiceError), 0;
    }
    assert !Alive(m.states, [conflicting, "summit-deposit-rpc"][0]);
    assert !Alive(m.states, [conflicting, "summit-deposit-rpc"][1]);
    clear := RequireServices(m, sequence);
    if !clear {
      return Err(ServiceError), 0;
    }
    var started: seq<Program> := [];
    for i := 0 to |sequence|
      invariant Owned(needs, initial, m.states, started)
      invariant OrderlySince(needs, m.log, mark) && SparesLive(initial, m.log, mark)
      invariant Closed(needs, m.states) && m.faults >= old(m.faults)
      invariant forall u :: u !in started ==> StateIn(m.states, u) == StateIn(initial, u)
      invariant forall j :: 0 <= j < i ==> Running(m.states, sequence[j])
      invariant forall j :: 0 <= j < |started| ==> Running(m.states, started[j])
      invariant forall j :: 0 <= j < i && !Alive(initial, sequence[j]) ==> sequence[j] in started
      invariant forall u :: u in started ==> u in sequence
    {
      assert sequence[i] in sequence;
      ghost var before := m.states;
      var next;
      assert forall b :: b in sequence[..i] ==> Running(m.states, b);
      next, started := StartNext(m, sequence[i], needs, initial, started, mark);
      OthersRunning(before, m.states, sequence[i]);
      if next.Ok? {
        RunningIsAccounted(needs, initial, m.states, started, sequence[i]);
      }
      if next.Err? {
        assert sequence[i] in sequence;
        cleanupErrors := Unwind(m, started, needs, initial, mark);
        return Err(ServiceError), cleanupErrors;
      }
    }
    StartedWereDown(needs, initial, m.states, started);
    return Ok(started), 0;
  }

  // ---------------------------------------------------------------------
  // Stopping a node
  // ---------------------------------------------------------------------

  /** The order in which `stop_node` stops units. */
  ghost function StopSequence(summits: seq<Program>, custodian: Program): seq<Program> {
    ["checkpointer"] + summits + ["reth", custodian]
  }

  /**
   `stop_node`. On success every unit of the sequence is stopped, and exactly
   those that were alive are reported. From a closed state every request, also
   of a stop that fails half-way, finds a closed state and no live dependents.
   */
  method StopNode(m: Manager, summits: seq<Program>, custodian: Program, ghost needs: Needs)
    returns (r: Result<seq<Program>, ServiceError>)
    requires Irreflexive(needs) && Closed(needs, m.states)
    requires StopOrder(needs, StopSequence(summits, custodian))
    modifies m
    ensures r.Ok? ==> forall u :: u in StopSequence(summits, custodian) ==> !Alive(m.states, u)
    ensures r.Ok? ==> forall u :: u in r.value <==>
              u in StopSequence(summits, custodian) && Alive(old(m.states), u)
    ensures forall u :: u !in StopSequence(summits, custodian) ==>
              Alive(m.states, u) == Alive(old(m.states), u)
    ensures OrderlySince(needs, m.log, |old(m.log)|)
    ensures Closed(needs, m.states)
    ensures r.Err? <==> m.faults > old(m.faults)
  {
    var sequence := ["checkpointer"] + summits + ["reth", custodian];
    var stopped: seq<Program> := [];
    for i := 0 to |sequence|
      invariant Closed(needs, m.states) && m.faults == old(m.faults)
      invariant OrderlySince(needs, m.log, |old(m.log)|)
      invariant forall j :: 0 <= j < i ==> !Alive(m.states, sequence[j])
      invariant forall u :: u !in sequence[..i] ==> Alive(m.states, u) == Alive(old(m.states), u)
      invariant forall u :: u in stopped <==> u in sequence[..i] && Alive(old(m.states), u)
    {
      var name := sequence[i];
      ghost var before := m.states;
      assert sequence[..i + 1] == sequence[..i] + [name];
      assert forall a :: a in sequence[..i] ==> !Alive(m.states, a);
      var result := StopService(m, name);
      OthersRunning(before, m.states, name);
      ClosedOthers(needs, before, m.states, name);
      if result.Err? {
        return Err(ServiceError);
      }
      if result.value {
        stopped := stopped + [name];
      }
    }
    assert sequence[..|sequence|] == sequence;
    return Ok(stopped);
  }

  // ---------------------------------------------------------------------
  // The node's own dependencies
  // ---------------------------------------------------------------------

  /** Each unit of an order needs all units before it. */
  ghost function ChainNeeds(order: seq<Program>): Needs {
    set i, j | 0 <= j < i < |order| && order[i] != order[j] :: (order[i], order[j])
  }

  /** `Requires=` in the unit files: every Summit unit needs Reth. */
  const UNIT_REQUIRES: Needs := {
    ("summit", "reth"), ("summit-checkpoint", "reth"),
    ("summit-observer", "reth"), ("summit-observer-checkpoint", "reth")
  }

  /** Any order of different units respects its own chain. */
  lemma ChainRespected(order: seq<Program>)
    requires forall i, j :: 0 <= j < i < |order| ==> order[i] != order[j]
    ensures Irreflexive(ChainNeeds(order)) && StartOrder(ChainNeeds(order), order)
  {
    forall i, b | 0 <= i < |order| && (order[i], b) in ChainNeeds(order)
      ensures b in order[..i]
    {
      var k, j :| 0 <= j < k < |order| && order[k] != order[j] && (order[k], order[j]) == (order[i], b);
      assert k == i;
      assert order[..i][j] == b;
    }
  }

  /** The start sequence respects the full chain, and both roles the unit files. */
  lemma StartSequencesRespectNeeds(custodian: Program, summit: Program, checkpointer: bool)
    requires custodian != "reth" && custodian != summit && summit != "reth"
    requires custodian != "checkpointer" && summit != "checkpointer"
    ensures Irreflexive(ChainNeeds(NodeSequence(custodian, summit, checkpointer)))
    ensures StartOrder(ChainNeeds(NodeSequence(custodian, summit, checkpointer)),
                       NodeSequence(custodian, summit, checkpointer))
    ensures custodian == "custodian" || custodian == "observer-custodian" ==>
              Irreflexive(UNIT_REQUIRES) &&
              StartOrder(UNIT_REQUIRES, NodeSequence(custodian, summit, checkpointer))
  {
    assert |"checkpointer"| == 12 && |"reth"| == 4;
    ChainRespected(NodeSequence(custodian, summit, checkpointer));
    hide ChainNeeds;
    if custodian == "custodian" || custodian == "observer-custodian" {
      RethComesFirst(NodeSequence(custodian, summit, checkpointer));
    }
  }

  /** Only Summit units need anything, and only Reth. */
  lemma RethComesFirst(order: seq<Program>)
    requires |order| >= 2 && order[1] == "reth"
    requires order[0] == "custodian" || order[0] == "observer-custodian"
    ensures Irreflexive(UNIT_REQUIRES) && StartOrder(UNIT_REQUIRES, order)
  {
    forall i, b | 0 <= i < |order| && (order[i], b) in UNIT_REQUIRES
      ensures b in order[..i]
    {
      assert i >= 2;
      assert order[..i][1] == "reth";
    }
  }

  /** The validator's stop sequence respects the unit files. */
  lemma ValidatorStopRespectsUnits()
    ensures StopOrder(
              {("summit", "reth"), ("summit-checkpoint", "reth")},
              StopSequence(["summit-deposit-rpc", "summit", "summit-checkpoint"], "custodian"))
  {
    var order := StopSequence(["summit-deposit-rpc", "summit", "summit-checkpoint"], "custodian");
    var needs := {("summit", "reth"), ("summit-checkpoint", "reth")};
    assert order[2] == "summit" && order[3] == "summit-checkpoint" && order[4] == "reth";
    forall i, a | 0 <= i < |order| && (a, order[i]) in needs
      ensures a in order[..i]
    {
      assert i == 4;
      assert order[..4][2] == "summit" && order[..4][3] == "summit-checkpoint";
    }
  }
}
