/**
 Lifecycle-gated onboarding: polling an account status until a start is
 authorized or refused, twice, with the checkpoint installed in between and one
 deadline for both. Replies, operator answers, installations and the clock are
 arbitrary; a run is observed as long as the stream of replies lasts.
 */
module Onboarding {
  import opened Base

  type Status = string

  const PRE_JOINING: set<Status> := {"NotFound", "Inactive"}
  const REFUSED: set<Status> := {"SubmittedExitRequest", "FullPayoutPending"}
  const SYNCHRONIZING: set<Status> := {"Joining", "Active"}

  /** What the RPC answers: an account status, or an error. */
  datatype Reply = Account(status: Status) | RpcFailure

  datatype Action = Wait | StartEarly | LeaveStopped

  datatype Event =
    | Observed(status: Status)
    | Asked(action: Action)
    | Slept(at: real)
    | Installed
    | Started

  /** A start decision, an error, or a run that outlives the stream of replies. */
  datatype Decision = Start(preJoining: bool) | Leave | Raised | Unfinished

  class World {
    var replies: seq<Reply>
    var now: real
    ghost var trace: seq<Event>

    constructor (replies: seq<Reply>, now: real)
      ensures this.replies == replies && this.now == now && trace == []
    {
      this.replies := replies;
      this.now := now;
      trace := [];
    }

    /** `time.monotonic()`: never backwards. */
    method Monotonic() returns (t: real)
      modifies this`now
      ensures t == now && now >= old(now)
    {
      var passed: real := *;
      if passed > 0.0 {
        now := now + passed;
      }
      t := now;
    }

    /** `time.sleep`: at least the interval passes. */
    method Sleep(interval: real)
      requires interval > 0.0
      modifies this`now, this`trace
      ensures now >= old(now) + interval
      ensures trace == old(trace) + [Slept(old(now))]
    {
      trace := trace + [Slept(now)];
      now := now + interval;
      var late := Monotonic();
    }

    /** The operator's answer, or nothing when there is no one to ask. */
    method Ask() returns (r: Option<Action>)
      modifies this`trace
      ensures trace == if r.Some? then old(trace) + [Asked(r.value)] else old(trace)
    {
      var answers: bool, action: Action := *, *;
      if !answers {
        return None;
      }
      trace := trace + [Asked(action)];
      return Some(action);
    }
  }

  // ---------------------------------------------------------------------
  // Traces
  // ---------------------------------------------------------------------

  /** The trace ends with an observation of `s`, at most questions following it. */
  predicate JustObserved(trace: seq<Event>, s: Status)
    decreases |trace|
  {
    trace != [] &&
    var last := trace[|trace| - 1];
    last == Observed(s) || (last.Asked? && JustObserved(trace[..|trace| - 1], s))
  }

  predicate Acceptable(s: Status) {
    s == "Joining" || s == "Active" || s == "NotFound" || s == "Inactive"
  }

  /** An observation that ends the run is the last event. */
  predicate StopsAtRefusal(trace: seq<Event>) {
    forall i :: 0 <= i < |trace| && trace[i].Observed? && !Acceptable(trace[i].status) ==>
      i == |trace| - 1
  }

  predicate AllAcceptable(trace: seq<Event>) {
    forall i :: 0 <= i < |trace| && trace[i].Observed? ==> Acceptable(trace[i].status)
  }

  predicate Authorized(trace: seq<Event>, policy: Option<Action>) {
    policy == Some(StartEarly) || Asked(StartEarly) in trace
  }

  /** Observing `s` at the end of this trace allows a start. */
  predicate Allows(trace: seq<Event>, policy: Option<Action>, s: Status) {
    s == "Joining" || s == "Active" ||
    ((s == "NotFound" || s == "Inactive") && Authorized(trace, policy))
  }

  ghost predicate MayStart(trace: seq<Event>, policy: Option<Action>) {
    exists s :: JustObserved(trace, s) && Allows(trace, policy, s)
  }

  /** Every start comes right after an observation that allows it. */
  ghost predicate SafeStarts(trace: seq<Event>, policy: Option<Action>) {
    forall i :: 0 <= i < |trace| && trace[i].Started? ==> MayStart(trace[..i], policy)
  }

  /** How often the operator was asked. */
  function Questions(trace: seq<Event>): nat {
    if trace == [] then 0
    else Questions(trace[..|trace| - 1]) + if trace[|trace| - 1].Asked? then 1 else 0
  }

  lemma QuestionsMore(trace: seq<Event>, e: Event)
    ensures Questions(trace + [e]) == Questions(trace) + if e.Asked? then 1 else 0
  {
    assert (trace + [e])[..|trace|] == trace;
  }

  function SleepTimes(trace: seq<Event>): seq<real> {
    if trace == [] then []
    else
      var rest := SleepTimes(trace[..|trace| - 1]);
      var last := trace[|trace| - 1];
      if last.Slept? then rest + [last.at] else rest
  }

  /** Sleeps start at least an interval apart, from `start` on and before the deadline. */
  predicate Spaced(times: seq<real>, interval: real, start: real, deadline: Option<real>) {
    (forall i :: 0 <= i < |times| ==>
       start <= times[i] && (deadline.Some? ==> times[i] < deadline.value)) &&
    forall i :: 0 <= i < |times| - 1 ==> times[i] + interval <= times[i + 1]
  }

  /** The clock is an interval past the last sleep. */
  predicate Caught(times: seq<real>, interval: real, now: real) {
    times != [] ==> times[|times| - 1] + interval <= now
  }

  /** After an observation of Joining or Active, at most questions. */
  predicate JoiningSeen(trace: seq<Event>) {
    JustObserved(trace, "Joining") || JustObserved(trace, "Active")
  }

  /** After an observation of NotFound or Inactive, at most questions. */
  predicate NotYetSeen(trace: seq<Event>) {
    JustObserved(trace, "NotFound") || JustObserved(trace, "Inactive")
  }

  predicate ExitSeenAt(trace: seq<Event>, i: nat)
    requires i < |trace|
  {
    trace[i] == Observed("SubmittedExitRequest") || trace[i] == Observed("FullPayoutPending")
  }

  /** A validator seen leaving is not observed any further, and the run has failed. */
  ghost predicate ExitIsLast(trace: seq<Event>, failed: bool) {
    forall i :: 0 <= i < |trace| && ExitSeenAt(trace, i) ==> i == |trace| - 1 && failed
  }

  lemma ExitUnseen(trace: seq<Event>, failed: bool)
    requires AllAcceptable(trace)
    ensures ExitIsLast(trace, failed)
  {
  }

  lemma ExitSeenLast(trace: seq<Event>)
    requires StopsAtRefusal(trace)
    ensures ExitIsLast(trace, true)
  {
  }

  lemma WhenAuthorized(trace: seq<Event>, policy: Option<Action>)
    requires Authorized(trace, policy)
    ensures policy == Some(StartEarly) || Asked(StartEarly) in trace
  {
  }

  lemma {:induction false} LaterSleep(times: seq<real>, interval: real, start: real,
                                      deadline: Option<real>, i: nat)
    requires interval > 0.0 && Spaced(times, interval, start, deadline) && i < |times|
    ensures start + (i as real) * interval <= times[i]
  {
    if i > 0 {
      LaterSleep(times, interval, start, deadline, i - 1);
      assert ((i - 1) as real) * interval + interval == (i as real) * interval;
      assert times[i - 1] + interval <= times[i - 1 + 1];
    }
  }

  /** One deadline bounds the number of sleeps. */
  lemma DeadlineBoundsSleeps(times: seq<real>, interval: real, start: real, timeout: real)
    requires interval > 0.0 && timeout > 0.0
    requires Spaced(times, interval, start, Some(start + timeout))
    ensures times != [] ==> ((|times| - 1) as real) * interval < timeout
  {
    if times != [] {
      LaterSleep(times, interval, start, Some(start + timeout), |times| - 1);
    }
  }

  // ---------------------------------------------------------------------
  // Waiting for an authorization
  // ---------------------------------------------------------------------

  /** `choose_pre_joining_action`: the policy, or else the operator. */
  method ChoosePreJoiningAction(w: World, policy: Option<Action>) returns (r: Option<Action>)
    modifies w`trace
    ensures policy.Some? ==> r == policy && w.trace == old(w.trace)
    ensures policy.None? ==>
              w.trace == if r.Some? then old(w.trace) + [Asked(r.value)] else old(w.trace)
  {
    if policy.Some? {
      return policy;
    }
    r := w.Ask();
  }

  /** The operator's policy, the polling interval, when waiting began and must end. */
  datatype Limits =
    Limits(policy: Option<Action>, interval: real, start: real, deadline: Option<real>)

  /** The trace so far is safe, and its sleeps are within the deadline. */
  ghost predicate GoodRun(trace: seq<Event>, now: real, l: Limits) {
    && SafeStarts(trace, l.policy)
    && l.start <= now
    && Spaced(SleepTimes(trace), l.interval, l.start, l.deadline)
    && Caught(SleepTimes(trace), l.interval, now)
    && AllAcceptable(trace)
  }

  /** A harmless event: no start, no refusal, no sleep. */
  lemma ExtendRun(trace: seq<Event>, e: Event, now: real, now': real, l: Limits)
    requires GoodRun(trace, now, l) && now <= now'
    requires e.Asked? || e.Installed? || (e.Observed? && Acceptable(e.status))
    ensures GoodRun(trace + [e], now', l)
  {
    SameStarts(trace, e, l.policy);
    assert (trace + [e])[..|trace|] == trace;
  }

  lemma SameStarts(trace: seq<Event>, e: Event, policy: Option<Action>)
    requires SafeStarts(trace, policy) && !e.Started?
    ensures SafeStarts(trace + [e], policy)
  {
    var t := trace + [e];
    forall i | 0 <= i < |t| && t[i].Started?
      ensures MayStart(t[..i], policy)
    {
      assert t[..i] == trace[..i] && trace[i].Started?;
    }
  }

  lemma SleepInRun(trace: seq<Event>, at: real, now: real, l: Limits)
    requires GoodRun(trace, at, l)
    requires l.deadline.Some? ==> at < l.deadline.value
    requires l.interval > 0.0 && at + l.interval <= now
    ensures GoodRun(trace + [Slept(at)], now, l)
  {
    SameStarts(trace, Slept(at), l.policy);
    assert (trace + [Slept(at)])[..|trace|] == trace;
  }

  lemma ClockMoves(trace: seq<Event>, now: real, now': real, l: Limits)
    requires GoodRun(trace, now, l) && now <= now'
    ensures GoodRun(trace, now', l)
  {
  }

  /** A refused observation is the end of the run. */
  lemma RefusalEnds(trace: seq<Event>, s: Status, now: real, l: Limits)
    requires GoodRun(trace, now, l)
    ensures EndedRun(trace + [Observed(s)], l)
  {
    SameStarts(trace, Observed(s), l.policy);
    assert (trace + [Observed(s)])[..|trace|] == trace;
  }

  /** What holds of every run, however it ended. */
  ghost predicate EndedRun(trace: seq<Event>, l: Limits) {
    && SafeStarts(trace, l.policy)
    && StopsAtRefusal(trace)
    && Spaced(SleepTimes(trace), l.interval, l.start, l.deadline)
  }

  lemma GoodRunEnds(trace: seq<Event>, now: real, l: Limits)
    requires GoodRun(trace, now, l)
    ensures EndedRun(trace, l) && AllAcceptable(trace)
    ensures ExitIsLast(trace, false) && ExitIsLast(trace, true)
  {
    ExitUnseen(trace, false);
    ExitUnseen(trace, true);
  }

  lemma EndedRunEnds(trace: seq<Event>, l: Limits)
    requires EndedRun(trace, l)
    ensures ExitIsLast(trace, true)
  {
    ExitSeenLast(trace);
  }

  /** One poll of the account status. */
  datatype Sight = Seen(status: Status) | NoReply | ReplyError

  method Observe(w: World) returns (r: Sight)
    modifies w`replies, w`trace
    ensures r.NoReply? || |w.replies| < |old(w.replies)|
    ensures w.trace == if r.Seen? then old(w.trace) + [Observed(r.status)] else old(w.trace)
    ensures r == if old(w.replies) == [] then NoReply
                 else if old(w.replies)[0].RpcFailure? then ReplyError
                 else Seen(old(w.replies)[0].status)
    ensures w.replies == if old(w.replies) == [] then [] else old(w.replies)[1..]
  {
    if w.replies == [] {
      return NoReply;
    }
    var reply := w.replies[0];
    w.replies := w.replies[1..];
    if reply.RpcFailure? {
      return ReplyError;
    }
    w.trace := w.trace + [Observed(reply.status)];
    return Seen(reply.status);
  }

  lemma ObservedNow(trace: seq<Event>, s: Status)
    ensures JustObserved(trace + [Observed(s)], s)
  {
  }

  lemma AskedNow(trace: seq<Event>, s: Status, a: Action)
    requires JustObserved(trace, s)
    ensures JustObserved(trace + [Asked(a)], s)
  {
    assert (trace + [Asked(a)])[..|trace|] == trace;
  }

  /** What to do before Joining: an earlier early start is kept without asking again. */
  method Decide(w: World, current: Option<Action>, allowPreJoiningStart: bool,
                ghost status: Status, ghost l: Limits)
    returns (action: Option<Action>)
    requires GoodRun(w.trace, w.now, l) && JustObserved(w.trace, status)
    requires allowPreJoiningStart ==> Authorized(w.trace, l.policy)
    requires current == l.policy || current == Some(Wait)
    modifies w`trace
    ensures GoodRun(w.trace, w.now, l) && JustObserved(w.trace, status)
    ensures allowPreJoiningStart ==> action == Some(StartEarly)
    ensures !allowPreJoiningStart && current.Some? ==> action == current
    ensures action == Some(StartEarly) || allowPreJoiningStart ==> Authorized(w.trace, l.policy)
    ensures w.trace == old(w.trace) ||
            (!allowPreJoiningStart && current.None? && action.Some? &&
             w.trace == old(w.trace) + [Asked(action.value)])
    ensures !allowPreJoiningStart && current.None? && action.Some? ==>
              w.trace == old(w.trace) + [Asked(action.value)]
  {
    hide GoodRun, JustObserved;
    if allowPreJoiningStart {
      return Some(StartEarly);
    }
    action := ChoosePreJoiningAction(w, current);
    if current.None? && action.Some? {
      ExtendRun(old(w.trace), Asked(action.value), w.now, w.now, l);
      AskedNow(old(w.trace), status, action.value);
    }
  }

  /** The trace has grown from `before`, with no start and no installation in the new part. */
  predicate Grew(before: seq<Event>, trace: seq<Event>) {
    && |before| <= |trace| && trace[..|before|] == before
    && Started !in trace[|before|..] && Installed !in trace[|before|..]
  }

  lemma GrewNothing(trace: seq<Event>)
    ensures Grew(trace, trace)
  {
  }

  lemma GrewMore(before: seq<Event>, trace: seq<Event>, e: Event)
    requires Grew(before, trace) && !e.Started? && !e.Installed?
    ensures Grew(before, trace + [e])
  {
    assert (trace + [e])[|before|..] == trace[|before|..] + [e];
  }

  lemma GrewKeeps(before: seq<Event>, trace: seq<Event>)
    requires Grew(before, trace)
    ensures Started in trace <==> Started in before
    ensures Installed in trace <==> Installed in before
  {
    assert trace == before + trace[|before|..];
  }

  lemma MoreAuthorized(trace: seq<Event>, e: Event, policy: Option<Action>)
    requires Authorized(trace, policy)
    ensures Authorized(trace + [e], policy)
  {
  }

  lemma GrewAuthorized(before: seq<Event>, trace: seq<Event>, policy: Option<Action>)
    requires Grew(before, trace) && Authorized(before, policy)
    ensures Authorized(trace, policy)
  {
    assert trace == before + trace[|before|..];
  }

  lemma MayStartNow(trace: seq<Event>, s: Status, policy: Option<Action>)
    requires JustObserved(trace, s) && Allows(trace, policy, s)
    ensures MayStart(trace, policy)
  {
  }

  /** The deadline check of one round, and the sleep when it is not over yet. */
  method PauseUnlessLate(w: World, ghost before: seq<Event>, l: Limits) returns (late: bool)
    requires l.interval > 0.0 && GoodRun(w.trace, w.now, l) && Grew(before, w.trace)
    modifies w`now, w`trace
    ensures w.now >= old(w.now)
    ensures EndedRun(w.trace, l) && Grew(before, w.trace)
    ensures late ==> l.deadline.Some? && l.deadline.value <= w.now && w.trace == old(w.trace)
    ensures Questions(w.trace) == Questions(old(w.trace)) && old(w.trace) <= w.trace
    ensures !late ==> GoodRun(w.trace, w.now, l)
    ensures Authorized(old(w.trace), l.policy) ==> Authorized(w.trace, l.policy)
  {
    hide GoodRun, EndedRun, Grew, Authorized;
    ghost var trace, was := w.trace, w.now;
    GoodRunEnds(trace, was, l);
    if l.deadline.Some? {
      var t := w.Monotonic();
      ClockMoves(trace, was, t, l);
      if t >= l.deadline.value {
        return true;
      }
    }
    ghost var at := w.now;
    w.Sleep(l.interval);
    SleepInRun(trace, at, w.now, l);
    QuestionsMore(trace, Slept(at));
    GoodRunEnds(w.trace, w.now, l);
    GrewMore(before, trace, Slept(at));
    GrewNothing(trace);
    GrewMore(trace, trace, Slept(at));
    if Authorized(trace, l.policy) {
      GrewAuthorized(trace, w.trace, l.policy);
    }
    return false;
  }

  /** What a policy and a stream of replies lead to when there is no deadline. */
  function Verdict(replies: seq<Reply>, policy: Action, allowed: bool): Decision {
    if replies == [] then Unfinished
    else if replies[0].RpcFailure? then Raised
    else
      var status := replies[0].status;
      if status == "Joining" || status == "Active" then Start(false)
      else if status != "NotFound" && status != "Inactive" then Raised
      else if allowed || policy == StartEarly then Start(true)
      else if policy == LeaveStopped then Leave
      else Verdict(replies[1..], Wait, allowed)
  }

  /** The replies that are left when the verdict is reached. */
  function Remaining(replies: seq<Reply>, policy: Action, allowed: bool): seq<Reply> {
    if replies == [] then []
    else if (replies[0] == Account("NotFound") || replies[0] == Account("Inactive")) &&
            !allowed && policy == Wait
    then Remaining(replies[1..], Wait, allowed)
    else replies[1..]
  }

  predicate TimedOut(d: Decision, l: Limits, now: real) {
    d.Raised? && l.deadline.Some? && l.deadline.value <= now
  }

  predicate NotYetNext(replies: seq<Reply>) {
    replies != [] && (replies[0] == Account("NotFound") || replies[0] == Account("Inactive"))
  }

  /** The first observation after `before` was followed by a question. */
  predicate AnsweredAfter(before: seq<Event>, trace: seq<Event>) {
    |trace| > |before| + 1 && trace[|before| + 1].Asked?
  }

  /** The verdict on one reply. */
  lemma VerdictStep(replies: seq<Reply>, policy: Action, allowed: bool)
    ensures replies == [] ==>
              Verdict(replies, policy, allowed) == Unfinished &&
              Remaining(replies, policy, allowed) == []
    ensures replies != [] ==>
              var early := allowed || policy == StartEarly;
              var notYet := replies[0] == Account("NotFound") || replies[0] == Account("Inactive");
              if notYet && !early && policy == Wait then
                Verdict(replies, policy, allowed) == Verdict(replies[1..], Wait, allowed) &&
                Remaining(replies, policy, allowed) == Remaining(replies[1..], Wait, allowed)
              else
                Remaining(replies, policy, allowed) == replies[1..] &&
                Verdict(replies, policy, allowed) ==
                  if notYet then (if early then Start(true) else Leave)
                  else if replies[0] == Account("Joining") || replies[0] == Account("Active")
                  then Start(false) else Raised
  {
  }

  /** One round under the action `c`: the verdict on the replies, or what is left of it. */
  predicate Explains(d: Option<Decision>, before: seq<Reply>, after: seq<Reply>, c: Action,
                     allowed: bool)
  {
    if d.Some? then
      d.value == Verdict(before, c, allowed) && after == Remaining(before, c, allowed)
    else
      Verdict(before, c, allowed) == Verdict(after, Wait, allowed) &&
      Remaining(before, c, allowed) == Remaining(after, Wait, allowed)
  }

  /** What a decision rests on: the last observation, and an authorization or a refusal. */
  ghost predicate Founded(d: Decision, trace: seq<Event>, policy: Option<Action>) {
    && (d.Start? ==> MayStart(trace, policy))
    && (d.Start? && !d.preJoining ==> JoiningSeen(trace))
    && (d.Start? && d.preJoining ==>
          Authorized(trace, policy) && NotYetSeen(trace) &&
          (policy == Some(StartEarly) || Asked(StartEarly) in trace))
    && (d.Leave? ==>
          NotYetSeen(trace) &&
          (policy == Some(LeaveStopped) ||
           (trace != [] && trace[|trace| - 1] == Asked(LeaveStopped))))
  }

  /** One round of the polling loop, up to its deadline check. */
  method Poll(w: World, current: Option<Action>, allowPreJoiningStart: bool,
              ghost before: seq<Event>, l: Limits)
    returns (d: Option<Decision>)
    requires GoodRun(w.trace, w.now, l) && Grew(before, w.trace)
    requires allowPreJoiningStart ==> Authorized(w.trace, l.policy)
    requires current == l.policy || current == Some(Wait)
    modifies w`replies, w`trace
    ensures d != Some(Raised) ==> GoodRun(w.trace, w.now, l)
    ensures EndedRun(w.trace, l) && Grew(before, w.trace) && old(w.trace) <= w.trace
    ensures d.Some? ==> Founded(d.value, w.trace, l.policy)
    ensures ExitIsLast(w.trace, d == Some(Raised))
    ensures allowPreJoiningStart ==> Authorized(w.trace, l.policy)
    ensures d.None? ==> |w.replies| < |old(w.replies)|
    ensures current.Some? ==>
              Explains(d, old(w.replies), w.replies, current.value, allowPreJoiningStart) &&
              Questions(w.trace) == Questions(old(w.trace))
    ensures current.None? ==>
              if AnsweredAfter(old(w.trace), w.trace) then
                Explains(d, old(w.replies), w.replies, w.trace[|old(w.trace)| + 1].action,
                         allowPreJoiningStart) &&
                !allowPreJoiningStart && Questions(w.trace) == Questions(old(w.trace)) + 1
              else
                d.Some? && Questions(w.trace) == Questions(old(w.trace)) &&
                (d.value == Verdict(old(w.replies), StartEarly, allowPreJoiningStart) ||
                 (d.value.Raised? && NotYetNext(old(w.replies)) && !allowPreJoiningStart))
  {
    hide GoodRun, EndedRun, JustObserved, Grew, Authorized, ExitIsLast, Questions, Verdict,
         Remaining, MayStart;
    ghost var seen := w.trace;
    GoodRunEnds(seen, w.now, l);
    VerdictStep(w.replies, if current.Some? then current.value else StartEarly,
                allowPreJoiningStart);
    var sight := Observe(w);
    if !sight.Seen? {
      return Some(if sight.NoReply? then Unfinished else Raised);
    }
    var status := sight.status;
    ObservedNow(seen, status);
    QuestionsMore(seen, Observed(status));
    GrewMore(before, seen, Observed(status));
    if status in SYNCHRONIZING {
      ExtendRun(seen, Observed(status), w.now, w.now, l);
      GoodRunEnds(w.trace, w.now, l);
      MayStartNow(w.trace, status, l.policy);
      if allowPreJoiningStart {
        MoreAuthorized(seen, Observed(status), l.policy);
      }
      return Some(Start(false));
    }
    if status in REFUSED || status !in PRE_JOINING {
      RefusalEnds(seen, status, w.now, l);
      EndedRunEnds(w.trace, l);
      if allowPreJoiningStart {
        MoreAuthorized(seen, Observed(status), l.policy);
      }
      return Some(Raised);
    }
    ExtendRun(seen, Observed(status), w.now, w.now, l);
    if allowPreJoiningStart {
      MoreAuthorized(seen, Observed(status), l.policy);
    }
    d := Choose(w, current, allowPreJoiningStart, status, before, l);
    if AnsweredAfter(seen, w.trace) {
      VerdictStep(old(w.replies), w.trace[|seen| + 1].action, allowPreJoiningStart);
    }
  }

  /** The part of a round that follows an observation of NotFound or Inactive. */
  method Choose(w: World, current: Option<Action>, allowPreJoiningStart: bool,
                ghost status: Status, ghost before: seq<Event>, l: Limits)
    returns (d: Option<Decision>)
    requires GoodRun(w.trace, w.now, l) && Grew(before, w.trace)
    requires JustObserved(w.trace, status) && (status == "NotFound" || status == "Inactive")
    requires allowPreJoiningStart ==> Authorized(w.trace, l.policy)
    requires current == l.policy || current == Some(Wait)
    modifies w`trace
    ensures GoodRun(w.trace, w.now, l) && EndedRun(w.trace, l) && Grew(before, w.trace)
    ensures d.Some? ==> Founded(d.value, w.trace, l.policy)
    ensures ExitIsLast(w.trace, d == Some(Raised))
    ensures allowPreJoiningStart ==> Authorized(w.trace, l.policy)
    ensures if w.trace == old(w.trace) then
              if allowPreJoiningStart then d == Some(Start(true))
              else if current.None? then d == Some(Raised)
              else d == DecisionOf(current.value)
            else
              current.None? && !allowPreJoiningStart &&
              |w.trace| == |old(w.trace)| + 1 && w.trace[..|old(w.trace)|] == old(w.trace) &&
              w.trace[|old(w.trace)|].Asked? &&
              d == DecisionOf(w.trace[|old(w.trace)|].action)
    ensures Questions(w.trace) ==
            Questions(old(w.trace)) + if w.trace == old(w.trace) then 0 else 1
  {
    hide GoodRun, EndedRun, JustObserved, Grew, Authorized, ExitIsLast, Questions, MayStart;
    ghost var seen := w.trace;
    var action := Decide(w, current, allowPreJoiningStart, status, l);
    GoodRunEnds(w.trace, w.now, l);
    if w.trace != seen {
      GrewMore(before, seen, Asked(action.value));
      QuestionsMore(seen, Asked(action.value));
    }
    if action.None? {
      return Some(Raised);
    }
    if action == Some(StartEarly) {
      MayStartNow(w.trace, status, l.policy);
      WhenAuthorized(w.trace, l.policy);
      return Some(Start(true));
    }
    if action == Some(LeaveStopped) {
      return Some(Leave);
    }
    return None;
  }

  /** The decision an action before Joining is; waiting is none. */
  function DecisionOf(a: Action): Option<Decision> {
    match a
    case Wait => None
    case StartEarly => Some(Start(true))
    case LeaveStopped => Some(Leave)
  }

  lemma AnswerStays(before: seq<Event>, trace: seq<Event>, later: seq<Event>)
    requires AnsweredAfter(before, trace) && trace <= later
    ensures AnsweredAfter(before, later) && later[|before| + 1] == trace[|before| + 1]
  {
  }

  /**
   `wait_for_start_authorization`. A start is decided only right after an
   observation that allows it; a refused or unknown status ends the run.
   */
  method WaitForStartAuthorization(w: World, allowPreJoiningStart: bool, l: Limits)
    returns (d: Decision)
    requires l.interval > 0.0 && GoodRun(w.trace, w.now, l)
    requires allowPreJoiningStart ==> Authorized(w.trace, l.policy)
    modifies w
    ensures !d.Raised? ==> GoodRun(w.trace, w.now, l)
    ensures EndedRun(w.trace, l) && Grew(old(w.trace), w.trace)
    ensures Founded(d, w.trace, l.policy)
    ensures ExitIsLast(w.trace, d.Raised?)
    ensures Questions(w.trace) <=
            Questions(old(w.trace)) + if allowPreJoiningStart || l.policy.Some? then 0 else 1
    ensures l.policy.Some? ==>
              (d == Verdict(old(w.replies), l.policy.value, allowPreJoiningStart) &&
               w.replies == Remaining(old(w.replies), l.policy.value, allowPreJoiningStart)) ||
              TimedOut(d, l, w.now)
    ensures l.policy.None? ==>
              if AnsweredAfter(old(w.trace), w.trace) then
                d == Verdict(old(w.replies), w.trace[|old(w.trace)| + 1].action,
                             allowPreJoiningStart) ||
                TimedOut(d, l, w.now)
              else
                d == Verdict(old(w.replies), StartEarly, allowPreJoiningStart) ||
                (d.Raised? && NotYetNext(old(w.replies)) && !allowPreJoiningStart)
  {
    hide GoodRun, EndedRun, JustObserved, Grew, Authorized, ExitIsLast, Questions, Verdict,
         Remaining, MayStart, Founded, AnsweredAfter;
    var current := l.policy;
    ghost var chosen, start := l.policy, w.trace;
    GrewNothing(start);
    while true
      invariant GoodRun(w.trace, w.now, l) && Grew(start, w.trace)
      invariant allowPreJoiningStart ==> Authorized(w.trace, l.policy)
      invariant current == chosen == l.policy || (current == Some(Wait) && chosen.Some?)
      invariant chosen.None? ==> w.trace == start && w.replies == old(w.replies)
      invariant l.policy.Some? ==> chosen == l.policy && Questions(w.trace) == Questions(start)
      invariant l.policy.None? && chosen.Some? ==>
                  AnsweredAfter(start, w.trace) && !allowPreJoiningStart &&
                  AnswerOf(start, w.trace) == chosen.value &&
                  Questions(w.trace) == Questions(start) + 1
      invariant chosen.Some? ==>
                  Verdict(old(w.replies), chosen.value, allowPreJoiningStart) ==
                  Verdict(w.replies, current.value, allowPreJoiningStart) &&
                  Remaining(old(w.replies), chosen.value, allowPreJoiningStart) ==
                  Remaining(w.replies, current.value, allowPreJoiningStart)
      decreases |w.replies|
    {
      ghost var before := w.trace;
      var next := Poll(w, current, allowPreJoiningStart, start, l);
      if chosen.Some? && l.policy.None? {
        AnswerStays(start, before, w.trace);
      }
      if next.Some? {
        RaisedIsFounded(w.trace, l.policy);
        return next.value;
      }
      if chosen.None? {
        chosen := Some(AnswerOf(start, w.trace));
      }
      current := Some(Wait);
      ghost var polled := w.trace;
      var late := PauseUnlessLate(w, start, l);
      if l.policy.None? {
        AnswerStays(start, polled, w.trace);
      }
      EndedRunEnds(w.trace, l);
      if late {
        RaisedIsFounded(w.trace, l.policy);
        return Raised;
      }
    }
  }

  /** The action answered to the first question. */
  function AnswerOf(before: seq<Event>, trace: seq<Event>): Action
    requires AnsweredAfter(before, trace)
  {
    trace[|before| + 1].action
  }

  lemma RaisedIsFounded(trace: seq<Event>, policy: Option<Action>)
    ensures Founded(Raised, trace, policy)
  {
  }

  // ---------------------------------------------------------------------
  // Onboarding a validator
  // ---------------------------------------------------------------------

  datatype OnboardingEnd = ServicesStarted | LeftStopped | Failed | StillWaiting

  lemma StartIsSafe(trace: seq<Event>, now: real, l: Limits)
    requires GoodRun(trace, now, l) && MayStart(trace, l.policy)
    ensures EndedRun(trace + [Started], l) && AllAcceptable(trace + [Started])
    ensures ExitIsLast(trace + [Started], false)
  {
    var t := trace + [Started];
    assert t[..|trace|] == trace;
    forall i | 0 <= i < |t| && t[i].Started?
      ensures MayStart(t[..i], l.policy)
    {
      if i < |trace| {
        assert t[..i] == trace[..i] && trace[i].Started?;
      }
    }
  }

  lemma NoQuestions()
    ensures Questions([]) == 0
  {
  }

  lemma EmptyRun(now: real, l: Limits)
    requires l.start <= now
    ensures GoodRun([], now, l)
  {
  }

  /** Sleeping counted against the timeout, whichever phase it happens in. */
  lemma BoundRun(trace: seq<Event>, l: Limits, timeout: real)
    requires l.interval > 0.0 && timeout > 0.0 && l.deadline == Some(l.start + timeout)
    requires EndedRun(trace, l)
    ensures SleepTimes(trace) != [] ==>
              ((|SleepTimes(trace)| - 1) as real) * l.interval < timeout
  {
    DeadlineBoundsSleeps(SleepTimes(trace), l.interval, l.start, timeout);
  }

  /** A checkpoint is installed only right after an observation of one of the four statuses. */
  ghost predicate SafeInstalls(trace: seq<Event>) {
    forall i :: 0 <= i < |trace| && trace[i].Installed? ==>
      JoiningSeen(trace[..i]) || NotYetSeen(trace[..i])
  }

  lemma NothingInstalled(trace: seq<Event>)
    requires Installed !in trace
    ensures SafeInstalls(trace)
  {
  }

  lemma InstalledNow(trace: seq<Event>)
    requires SafeInstalls(trace) && (JoiningSeen(trace) || NotYetSeen(trace))
    ensures SafeInstalls(trace + [Installed])
  {
    hide JoiningSeen, NotYetSeen;
    var t := trace + [Installed];
    assert t[..|trace|] == trace;
    forall i | 0 <= i < |t| && t[i].Installed?
      ensures JoiningSeen(t[..i]) || NotYetSeen(t[..i])
    {
      assert i < |trace| ==> t[..i] == trace[..i] && trace[i].Installed?;
    }
  }

  lemma InstallsKept(before: seq<Event>, trace: seq<Event>)
    requires SafeInstalls(before) && Grew(before, trace)
    ensures SafeInstalls(trace)
  {
    hide JoiningSeen, NotYetSeen;
    forall i | |before| <= i < |trace|
      ensures trace[i] != Installed
    {
      assert trace[|before|..][i - |before|] == trace[i];
    }
    forall i | 0 <= i < |trace| && trace[i].Installed?
      ensures JoiningSeen(trace[..i]) || NotYetSeen(trace[..i])
    {
      assert trace[..i] == before[..i] && before[i] == trace[i];
    }
  }

  lemma StartedInstalls(trace: seq<Event>)
    requires SafeInstalls(trace)
    ensures SafeInstalls(trace + [Started])
  {
    hide JoiningSeen, NotYetSeen;
    var t := trace + [Started];
    forall i | 0 <= i < |t| && t[i].Installed?
      ensures JoiningSeen(t[..i]) || NotYetSeen(t[..i])
    {
      assert t[..i] == trace[..i] && trace[i].Installed?;
    }
  }

  /** A checkpoint installed between the two checks, or nothing at all. */
  method InstallBetween(w: World, l: Limits, works: bool)
    requires GoodRun(w.trace, w.now, l)
    modifies w`now, w`trace
    ensures GoodRun(w.trace, w.now, l)
    ensures w.trace == if works then old(w.trace) + [Installed] else old(w.trace)
    ensures Questions(w.trace) == Questions(old(w.trace))
  {
    ghost var trace, was := w.trace, w.now;
    var now := w.Monotonic();
    ClockMoves(trace, was, now, l);
    if works {
      w.trace := trace + [Installed];
      ExtendRun(trace, Installed, now, now, l);
      QuestionsMore(trace, Installed);
    }
  }

  /**
   How onboarding ends when nobody is asked and nothing times out, given
   whether the installation and the start of the services work.
   */
  function EndOf(replies: seq<Reply>, policy: Action, sourceRequested: bool, installs: bool,
                 starts: bool): OnboardingEnd
  {
    var first := Verdict(replies, policy, false);
    if first.Raised? then Failed
    else if first.Unfinished? then StillWaiting
    else if sourceRequested && !installs then Failed
    else if first.Leave? then LeftStopped
    else
      match Verdict(Remaining(replies, policy, false), policy, first.preJoining)
      case Raised => Failed
      case Unfinished => StillWaiting
      case Leave => LeftStopped
      case Start(_) => if starts then ServicesStarted else Failed
  }

  /** How the second check and the start end when nothing times out. */
  function StartEnd(replies: seq<Reply>, policy: Action, allowed: bool, starts: bool): OnboardingEnd {
    match Verdict(replies, policy, allowed)
    case Raised => Failed
    case Unfinished => StillWaiting
    case Leave => LeftStopped
    case Start(_) => if starts then ServicesStarted else Failed
  }

  /** The trace ends with a start that was allowed. */
  ghost predicate StartedLast(trace: seq<Event>, policy: Option<Action>) {
    trace != [] && trace[|trace| - 1] == Started &&
    var before := trace[..|trace| - 1];
    MayStart(before, policy) &&
    (JoiningSeen(before) ||
     (NotYetSeen(before) && (policy == Some(StartEarly) || Asked(StartEarly) in before)))
  }

  lemma StartDecided(d: Decision, trace: seq<Event>, policy: Option<Action>)
    requires Founded(d, trace, policy) && d.Start?
    ensures StartedLast(trace + [Started], policy)
  {
    hide MayStart, JoiningSeen, NotYetSeen;
    assert (trace + [Started])[..|trace|] == trace;
  }

  /** `start_onboarded_validator`: check once more, then start. */
  method StartOnboarded(w: World, allowPreJoiningStart: bool, starts: bool, l: Limits)
    returns (end: OnboardingEnd)
    requires l.interval > 0.0 && GoodRun(w.trace, w.now, l)
    requires allowPreJoiningStart ==> Authorized(w.trace, l.policy)
    requires Started !in w.trace && SafeInstalls(w.trace)
    modifies w
    ensures EndedRun(w.trace, l) && ExitIsLast(w.trace, end == Failed)
    ensures end != Failed ==> AllAcceptable(w.trace)
    ensures Started in w.trace <==> end == ServicesStarted
    ensures end == ServicesStarted ==> StartedLast(w.trace, l.policy)
    ensures SafeInstalls(w.trace)
    ensures Installed in w.trace <==> Installed in old(w.trace)
    ensures Questions(w.trace) <= Questions(old(w.trace)) + if l.policy.Some? then 0 else 1
    ensures l.policy.Some? ==>
              end == StartEnd(old(w.replies), l.policy.value, allowPreJoiningStart, starts) ||
              (end == Failed && l.deadline.Some? && l.deadline.value <= w.now)
  {
    hide GoodRun, EndedRun, Authorized, MayStart, AllAcceptable, Grew, Verdict, Remaining,
         ExitIsLast, Questions, SafeInstalls, Founded, StartedLast;
    ghost var installed := w.trace;
    var second := WaitForStartAuthorization(w, allowPreJoiningStart, l);
    GrewKeeps(installed, w.trace);
    InstallsKept(installed, w.trace);
    if !second.Raised? {
      GoodRunEnds(w.trace, w.now, l);
    }
    if !second.Start? {
      return if second.Leave? then LeftStopped
             else if second.Raised? then Failed else StillWaiting;
    }
    if !starts {
      return Failed;
    }
    ghost var decided := w.trace;
    MayStartWhenDecided(second, decided, l.policy);
    StartIsSafe(decided, w.now, l);
    StartDecided(second, decided, l.policy);
    QuestionsMore(decided, Started);
    StartedInstalls(decided);
    w.trace := decided + [Started];
    return ServicesStarted;
  }

  lemma MayStartWhenDecided(d: Decision, trace: seq<Event>, policy: Option<Action>)
    requires Founded(d, trace, policy) && d.Start?
    ensures MayStart(trace, policy)
  {
    hide MayStart;
  }

  lemma SeenWhenDecided(d: Decision, trace: seq<Event>, policy: Option<Action>)
    requires Founded(d, trace, policy) && (d.Start? || d.Leave?)
    ensures JoiningSeen(trace) || NotYetSeen(trace)
    ensures d.Start? && d.preJoining ==> Authorized(trace, policy)
  {
    hide MayStart, JoiningSeen, NotYetSeen;
  }

  lemma EndOfIsStartEnd(replies: seq<Reply>, policy: Action, sourceRequested: bool,
                        installs: bool, starts: bool)
    ensures var first := Verdict(replies, policy, false);
            EndOf(replies, policy, sourceRequested, installs, starts) ==
            if first.Raised? then Failed
            else if first.Unfinished? then StillWaiting
            else if sourceRequested && !installs then Failed
            else if first.Leave? then LeftStopped
            else StartEnd(Remaining(replies, policy, false), policy, first.preJoining, starts)
  {
  }

  /**
   `handle_validator` for `onboard`, from the first status check on: wait, then
   install a checkpoint if one was given, then wait again under the same
   deadline and start. A timeout of zero means no deadline.
   */
  method OnboardValidator(w: World, policy: Option<Action>, timeout: real, interval: real,
                          sourceRequested: bool, installs: bool, starts: bool)
    returns (end: OnboardingEnd, l: Limits)
    requires interval > 0.0 && timeout >= 0.0 && w.trace == []
    modifies w
    ensures l.policy == policy && l.interval == interval && l.start >= old(w.now)
    ensures l.deadline == if timeout == 0.0 then None else Some(l.start + timeout)
    ensures EndedRun(w.trace, l)
    ensures Started in w.trace <==> end == ServicesStarted
    ensures end == ServicesStarted ==> StartedLast(w.trace, policy)
    ensures ExitIsLast(w.trace, end == Failed)
    ensures Questions(w.trace) <= if policy.Some? then 0 else 2
    ensures end != Failed ==> AllAcceptable(w.trace)
    ensures policy.Some? ==>
              end == EndOf(old(w.replies), policy.value, sourceRequested, installs, starts) ||
              (timeout > 0.0 && end == Failed && l.start + timeout <= w.now)
    ensures SafeInstalls(w.trace)
    ensures Installed in w.trace ==> sourceRequested
    ensures sourceRequested && (end == ServicesStarted || end == LeftStopped) ==>
              Installed in w.trace
  {
    hide GoodRun, EndedRun, Authorized, AllAcceptable, Grew, Verdict, Remaining, ExitIsLast,
         Questions, SafeInstalls, Founded, StartedLast, EndOf, StartEnd;
    assert Questions(w.trace) == 0 by { NoQuestions(); }
    if policy.Some? {
      EndOfIsStartEnd(w.replies, policy.value, sourceRequested, installs, starts);
    }
    var start := w.Monotonic();
    l := Limits(policy, interval, start, if timeout == 0.0 then None else Some(start + timeout));
    EmptyRun(w.now, l);
    var first := WaitForStartAuthorization(w, false, l);
    GrewKeeps([], w.trace);
    NothingInstalled(w.trace);
    if first.Raised? || first.Unfinished? {
      if first.Unfinished? {
        GoodRunEnds(w.trace, w.now, l);
      }
      return if first.Raised? then Failed else StillWaiting, l;
    }
    GoodRunEnds(w.trace, w.now, l);
    SeenWhenDecided(first, w.trace, policy);
    ghost var waited := w.trace;
    if sourceRequested {
      InstalledNow(w.trace);
      InstallBetween(w, l, installs);
      GoodRunEnds(w.trace, w.now, l);
      if !installs {
        return Failed, l;
      }
    }
    if first.Leave? {
      return LeftStopped, l;
    }
    if first.preJoining && sourceRequested {
      MoreAuthorized(waited, Installed, policy);
    }
    end := StartOnboarded(w, first.preJoining, starts, l);
  }
}
