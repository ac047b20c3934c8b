/** The bootstrap state machine and its bounded parallel dialing
    (crates/resurrect-bootstrap/src/lib.rs). */
module Bootstrap {
  import opened Common
  import opened Candidates

  datatype Phase =
    | Start
    | CacheDiscovery
    | NativeDiscovery
    | ResurrectScan
    | Dialing
    | Isolated
    | AnnounceSelf
    | Backoff
    | Connected

  /** Durations are in any fixed unit of time. */
  datatype Policy = Policy(minimumSuccessfulPeers: nat, maximumParallelDials: nat, perDialTimeout: nat, rebootTtl: nat) {
    function Target(): (r: nat)
      ensures r == Max(1, minimumSuccessfulPeers)
    {
      if minimumSuccessfulPeers == 0 then 1 else minimumSuccessfulPeers
    }

    function Parallel(): (r: nat)
      ensures r == Max(1, maximumParallelDials)
    {
      if maximumParallelDials >= 1 then maximumParallelDials else 1
    }
  }

  /** Everything the adapters decide: the answer of each source (None for an error), the k-th
      connectivity reading, how long each dial would take (None for forever), and publication. */
  datatype Adapters = Adapters(
    cache: Option<seq<Candidate>>,
    native: Option<seq<Candidate>>,
    registry: Option<seq<Candidate>>,
    reading: nat -> nat,
    dialTime: (Phase, nat) -> Option<nat>,
    eligible: bool,
    announceError: Option<string>)

  /** What a cycle does to the world, in order. Dials are named by source and candidate index. */
  datatype Effect =
    | ReadCount(value: nat)
    | Discover(source: Phase)
    | Offer(peer: Candidate)
    | StartDial(source: Phase, index: nat, at: nat)
    | EndDial(source: Phase, index: nat, at: nat)
    | Announce(ttl: nat)

  datatype Trace = Trace(transitions: seq<Phase>, effects: seq<Effect>, clock: nat)

  datatype Outcome = Outcome(state: Phase, connectedVia: Option<Phase>, announced: bool, transitions: seq<Phase>)

  // ----- Observations on effects -----

  function Readings(effects: seq<Effect>): seq<nat> {
    if effects == [] then []
    else
      var rest, last := Readings(effects[..|effects| - 1]), effects[|effects| - 1];
      if last.ReadCount? then rest + [last.value] else rest
  }

  function Started(effects: seq<Effect>): seq<nat> {
    if effects == [] then []
    else
      var rest, last := Started(effects[..|effects| - 1]), effects[|effects| - 1];
      if last.StartDial? then rest + [last.index] else rest
  }

  function Ended(effects: seq<Effect>): seq<nat> {
    if effects == [] then []
    else
      var rest, last := Ended(effects[..|effects| - 1]), effects[|effects| - 1];
      if last.EndDial? then rest + [last.index] else rest
  }

  lemma ObserveAppend(effects: seq<Effect>, e: Effect)
    ensures Readings(effects + [e]) == Readings(effects) + if e.ReadCount? then [e.value] else []
    ensures Started(effects + [e]) == Started(effects) + if e.StartDial? then [e.index] else []
    ensures Ended(effects + [e]) == Ended(effects) + if e.EndDial? then [e.index] else []
  {
    assert (effects + [e])[..|effects|] == effects;
  }

  function UpTo(n: nat): (r: seq<nat>)
    ensures |r| == n && forall i :: 0 <= i < n ==> r[i] == i
  {
    seq(n, i requires 0 <= i => i)
  }

  /** Every reading so far was below the target. */
  ghost predicate Quiet(effects: seq<Effect>, target: nat) {
    forall i :: 0 <= i < |effects| && effects[i].ReadCount? ==> effects[i].value < target
  }

  /** The readings taken are the adapter's, starting with the `from`-th. */
  ghost predicate ReadsFrom(effects: seq<Effect>, reading: nat -> nat, from: nat) {
    var values := Readings(effects);
    forall i :: 0 <= i < |values| ==> values[i] == reading(from + i)
  }

  // ----- Waves -----

  /** How late a dial can start: whole waves of timeouts. */
  function Wave(index: nat, parallel: nat, timeout: nat): nat
    requires parallel >= 1
  {
    (index / parallel) * timeout
  }

  lemma WaveGrows(a: nat, b: nat, parallel: nat, timeout: nat)
    requires parallel >= 1 && a <= b
    ensures Wave(a, parallel, timeout) <= Wave(b, parallel, timeout)
  {
    QuotientGrows(a, b, parallel);
    ProductGrows(a / parallel, b / parallel, timeout);
  }

  lemma QuotientGrows(a: nat, b: nat, p: nat)
    requires p >= 1 && a <= b
    ensures a / p <= b / p
  {
    if a / p > b / p {
      ProductGrows(b / p + 1, a / p, p);
    }
  }

  /** Running dials with the moments they are due: each was started in its wave and none is overdue. */
  ghost predicate OnSchedule(due: map<nat, nat>, next: nat, from: nat, now: nat, parallel: nat, timeout: nat)
    requires parallel >= 1
  {
    forall j :: j in due ==> j < next && now <= due[j] <= from + Wave(j, parallel, timeout) + timeout
  }

  /** With every slot taken, the first to finish does so in time for the next dial's wave. */
  lemma SlotFreesInTime(due: map<nat, nat>, next: nat, from: nat, now: nat, parallel: nat, timeout: nat)
    requires parallel >= 1 && |due| == parallel && OnSchedule(due, next, from, now, parallel, timeout)
    ensures now <= from + Wave(next, parallel, timeout)
  {
    if now > from + Wave(next, parallel, timeout) {
      var wave := next / parallel;
      var first := wave * parallel;
      Euclid(next, parallel);
      LateRunners(due, next, from, now, parallel, timeout, wave, first);
      assert |due.Keys| == |due|;
      SubsetIsSmaller(due.Keys, Interval(first, next));
    }
  }

  lemma LateRunners(due: map<nat, nat>, next: nat, from: nat, now: nat, parallel: nat, timeout: nat, wave: nat, first: nat)
    requires parallel >= 1 && OnSchedule(due, next, from, now, parallel, timeout)
    requires now > from + wave * timeout && first == wave * parallel && first <= next
    ensures due.Keys <= Interval(first, next)
  {
    hide Wave;
    forall j | j in due
      ensures j in Interval(first, next)
    {
      if j < first {
        EarlierWaveIsOver(j, wave, parallel, timeout);
      }
    }
  }

  lemma EarlierWaveIsOver(j: nat, wave: nat, parallel: nat, timeout: nat)
    requires parallel >= 1 && j < wave * parallel
    ensures Wave(j, parallel, timeout) + timeout <= wave * timeout
  {
    if j / parallel >= wave {
      ProductGrows(wave, j / parallel, parallel);
    }
    ProductGrows(j / parallel + 1, wave, timeout);
    assert (j / parallel + 1) * timeout == (j / parallel) * timeout + timeout;
  }

  function Interval(a: nat, b: nat): (r: set<nat>)
    requires a <= b
    ensures |r| == b - a && forall j: nat :: j in r <==> a <= j < b
    decreases b
  {
    if a == b then {} else Interval(a, b - 1) + {b - 1}
  }

  function CeilDiv(n: nat, p: nat): nat
    requires p >= 1
  {
    (n + p - 1) / p
  }

  /** As many whole timeouts as there are waves of dials. */
  function Makespan(n: nat, parallel: nat, timeout: nat): nat
    requires parallel >= 1
  {
    CeilDiv(n, parallel) * timeout
  }

  lemma LastWaveEnds(j: nat, n: nat, parallel: nat, timeout: nat)
    requires parallel >= 1 && j < n
    ensures Wave(j, parallel, timeout) + timeout <= Makespan(n, parallel, timeout)
  {
    assert CeilDiv(n, parallel) == (n - 1) / parallel + 1 by {
      assert n + parallel - 1 == (n - 1) + parallel;
      QuotientPlusOne(n - 1, parallel);
    }
    QuotientGrows(j, n - 1, parallel);
    ProductGrows(j / parallel + 1, CeilDiv(n, parallel), timeout);
    assert (j / parallel + 1) * timeout == (j / parallel) * timeout + timeout;
  }

  lemma Euclid(a: nat, p: nat)
    requires p >= 1
    ensures (a / p) * p <= a < (a / p) * p + p
  {
    assert a == p * (a / p) + a % p;
  }

  lemma QuotientPlusOne(a: nat, p: nat)
    requires p >= 1
    ensures (a + p) / p == a / p + 1
  {
    Euclid(a, p);
    Euclid(a + p, p);
    var q, q' := (a + p) / p, a / p + 1;
    assert q' * p == (a / p) * p + p;
    if q > q' {
      ProductGrows(q' + 1, q, p);
    }
  }

  // ----- Dialing sessions -----

  /** One session of dialing: the candidates of a source, the reading and the moment it begins with. */
  datatype Plan = Plan(adapters: Adapters, policy: Policy, source: Phase, count: nat, firstReading: nat, from: nat) {
    function Duration(index: nat): (t: nat)
      ensures t <= policy.perDialTimeout
      ensures var wanted := adapters.dialTime(source, index);
        t == if wanted.Some? then Min(wanted.value, policy.perDialTimeout) else policy.perDialTimeout
    {
      match adapters.dialTime(source, index)
      case Some(d) => if d <= policy.perDialTimeout then d else policy.perDialTimeout
      case None => policy.perDialTimeout
    }

    function Latest(): nat {
      from + Makespan(count, policy.Parallel(), policy.perDialTimeout)
    }
  }

  /** The moment of the last dial effect. */
  function Moment(log: seq<Effect>, from: nat): nat {
    if log == [] then from
    else
      var last := log[|log| - 1];
      if last.StartDial? || last.EndDial? then last.at else Moment(log[..|log| - 1], from)
  }

  /** The dials running after `log`, each with the moment it is due to end. */
  function Due(log: seq<Effect>, plan: Plan): map<nat, nat> {
    if log == [] then map[]
    else
      var before, last := Due(log[..|log| - 1], plan), log[|log| - 1];
      if last.StartDial? then before[last.index := last.at + plan.Duration(last.index)]
      else if last.EndDial? then before - {last.index}
      else before
  }

  ghost predicate ReadingDue(log: seq<Effect>) {
    log != [] && log[|log| - 1].EndDial?
  }

  /** What may happen after `log`: a dial starts in candidate order, at once, as soon as a slot is free;
      the running dial that is due first ends, but only when no other could start; each ending is
      followed by one reading; nothing follows a reading at the target. */
  ghost predicate StepOk(log: seq<Effect>, e: Effect, plan: Plan) {
    var due := Due(log, plan);
    && Quiet(log, plan.policy.Target())
    && (e.ReadCount? <==> ReadingDue(log))
    && match e
       case StartDial(source, index, at) =>
         source == plan.source && index == |Started(log)| < plan.count && |due| < plan.policy.Parallel() && at == Moment(log, plan.from)
       case EndDial(source, index, at) =>
         && source == plan.source && index in due && at == due[index]
         && (forall j :: j in due ==> at <= due[j])
         && (|due| == plan.policy.Parallel() || |Started(log)| == plan.count)
       case ReadCount(value) => value == plan.adapters.reading(plan.firstReading + |Readings(log)|)
       case _ => false
  }

  ghost predicate Session(log: seq<Effect>, plan: Plan) {
    log == [] || (Session(log[..|log| - 1], plan) && StepOk(log[..|log| - 1], log[|log| - 1], plan))
  }

  /** A whole session: it ends with the first reading at the target, or with every dial ended. */
  ghost predicate DialLog(log: seq<Effect>, plan: Plan, connected: bool) {
    && Session(log, plan) && log != [] && log[|log| - 1].ReadCount?
    && (connected <==> log[|log| - 1].value >= plan.policy.Target())
    && (!connected ==> |Started(log)| == plan.count && Due(log, plan) == map[])
  }

  lemma SessionAppend(log: seq<Effect>, e: Effect, plan: Plan)
    ensures Session(log + [e], plan) <==> Session(log, plan) && StepOk(log, e, plan)
    ensures Due(log + [e], plan) ==
            if e.StartDial? then Due(log, plan)[e.index := e.at + plan.Duration(e.index)]
            else if e.EndDial? then Due(log, plan) - {e.index}
            else Due(log, plan)
    ensures Moment(log + [e], plan.from) == (if e.StartDial? || e.EndDial? then e.at else Moment(log, plan.from))
  {
    hide StepOk;
    assert (log + [e])[..|log|] == log;
  }

  // ----- What every session guarantees -----

  /** Dials started and not yet ended. */
  function InFlight(log: seq<Effect>): set<nat> {
    set j | j in Started(log) && j !in Ended(log)
  }

  ghost predicate NoRepeats(s: seq<nat>) {
    forall i, j :: 0 <= i < j < |s| ==> s[i] != s[j]
  }

  /** The running totals of a session. */
  ghost predicate Accounted(log: seq<Effect>, plan: Plan) {
    && Started(log) == UpTo(|Started(log)|) && |Started(log)| <= plan.count
    && Due(log, plan).Keys == InFlight(log) && |Due(log, plan)| <= plan.policy.Parallel()
    && NoRepeats(Ended(log)) && forall j :: j in Ended(log) ==> j in Started(log)
  }

  ghost predicate InTime(log: seq<Effect>, plan: Plan) {
    var due, next, now := Due(log, plan), |Started(log)|, Moment(log, plan.from);
    var parallel, timeout := plan.policy.Parallel(), plan.policy.perDialTimeout;
    && OnSchedule(due, next, plan.from, now, parallel, timeout)
    && plan.from <= now <= plan.Latest()
    && (next < plan.count && |due| < parallel ==> now <= plan.from + Wave(next, parallel, timeout))
  }

  ghost predicate ReadOncePerEnding(log: seq<Effect>, plan: Plan) {
    && |Readings(log)| + (if ReadingDue(log) then 1 else 0) == |Ended(log)|
    && ReadsFrom(log, plan.adapters.reading, plan.firstReading)
  }

  lemma StartGoesInFlight(log: seq<Effect>, e: Effect)
    requires e.StartDial? && Started(log) == UpTo(e.index) && forall j :: j in Ended(log) ==> j in Started(log)
    ensures Started(log + [e]) == UpTo(e.index + 1) && Ended(log + [e]) == Ended(log)
    ensures InFlight(log + [e]) == InFlight(log) + {e.index} && e.index !in InFlight(log)
    ensures forall j :: j in Ended(log) ==> j in Started(log + [e])
  {
    ObserveAppend(log, e);
    hide Started, Ended;
    assert UpTo(e.index + 1) == UpTo(e.index) + [e.index];
  }

  lemma EndLeavesFlight(log: seq<Effect>, e: Effect)
    requires e.EndDial? && e.index in InFlight(log) && NoRepeats(Ended(log))
    ensures Started(log + [e]) == Started(log) && InFlight(log + [e]) == InFlight(log) - {e.index}
    ensures NoRepeats(Ended(log + [e])) && (forall j :: j in Ended(log + [e]) ==> j in Ended(log) || j == e.index)
    ensures e.index in Started(log)
  {
    ObserveAppend(log, e);
    hide Started, Ended;
  }

  lemma StepIsAccounted(log: seq<Effect>, e: Effect, plan: Plan)
    requires Accounted(log, plan) && StepOk(log, e, plan)
    ensures Accounted(log + [e], plan)
  {
    hide Due, Started, Ended, Quiet, Readings, Moment, InFlight, UpTo, NoRepeats;
    SessionAppend(log, e, plan);
    if e.StartDial? {
      StartGoesInFlight(log, e);
      assert Due(log + [e], plan).Keys == Due(log, plan).Keys + {e.index};
    } else if e.EndDial? {
      EndLeavesFlight(log, e);
      assert Due(log + [e], plan).Keys == Due(log, plan).Keys - {e.index};
      assert Due(log, plan) == Due(log + [e], plan)[e.index := Due(log, plan)[e.index]];
    } else {
      ReadingChangesNothing(log, e);
    }
  }

  lemma ReadingChangesNothing(log: seq<Effect>, e: Effect)
    requires !e.StartDial? && !e.EndDial?
    ensures Started(log + [e]) == Started(log) && Ended(log + [e]) == Ended(log) && InFlight(log + [e]) == InFlight(log)
  {
    ObserveAppend(log, e);
  }

  lemma StartIsInTime(due: map<nat, nat>, next: nat, from: nat, now: nat, parallel: nat, timeout: nat, time: nat)
    requires parallel >= 1 && OnSchedule(due, next, from, now, parallel, timeout)
    requires now <= from + Wave(next, parallel, timeout) && time <= timeout
    ensures OnSchedule(due[next := now + time], next + 1, from, now, parallel, timeout)
    ensures now <= from + Wave(next + 1, parallel, timeout)
  {
    hide Wave;
    WaveGrows(next, next + 1, parallel, timeout);
  }

  lemma EndIsInTime(due: map<nat, nat>, next: nat, from: nat, now: nat, parallel: nat, timeout: nat, first: nat, n: nat)
    requires parallel >= 1 && OnSchedule(due, next, from, now, parallel, timeout) && next <= n && |due| <= parallel
    requires first in due && forall j :: j in due ==> due[first] <= due[j]
    ensures OnSchedule(due - {first}, next, from, due[first], parallel, timeout)
    ensures |due| == parallel ==> due[first] <= from + Wave(next, parallel, timeout)
    ensures now <= due[first] <= from + Makespan(n, parallel, timeout)
  {
    hide Wave, Makespan;
    if |due| == parallel {
      SlotFreesInTime(due, next, from, due[first], parallel, timeout);
    }
    LastWaveEnds(first, n, parallel, timeout);
  }

  lemma StepIsInTime(log: seq<Effect>, e: Effect, plan: Plan)
    requires InTime(log, plan) && Accounted(log, plan) && StepOk(log, e, plan)
    ensures InTime(log + [e], plan) && Moment(log, plan.from) <= Moment(log + [e], plan.from)
  {
    hide Due, Started, Ended, Quiet, Readings, Moment, OnSchedule, Wave, Makespan, InFlight, UpTo, NoRepeats;
    ObserveAppend(log, e);
    SessionAppend(log, e, plan);
    var parallel, timeout := plan.policy.Parallel(), plan.policy.perDialTimeout;
    match e {
      case StartDial(_, index, at) => StartIsInTime(Due(log, plan), index, plan.from, at, parallel, timeout, plan.Duration(index));
      case EndDial(_, index, _) =>
        EndIsInTime(Due(log, plan), |Started(log)|, plan.from, Moment(log, plan.from), parallel, timeout, index, plan.count);
      case _ =>
    }
  }

  lemma StepIsRead(log: seq<Effect>, e: Effect, plan: Plan)
    requires ReadOncePerEnding(log, plan) && StepOk(log, e, plan)
    ensures ReadOncePerEnding(log + [e], plan)
  {
    hide Due, Started, Ended, Quiet, Readings, Moment;
    ObserveAppend(log, e);
  }

  lemma NothingYet(plan: Plan)
    ensures Accounted([], plan) && InTime([], plan) && ReadOncePerEnding([], plan)
  {
    assert UpTo(0) == [];
  }

  lemma {:induction false} SessionIsSound(log: seq<Effect>, plan: Plan)
    requires Session(log, plan)
    ensures Accounted(log, plan) && InTime(log, plan) && ReadOncePerEnding(log, plan)
  {
    hide Accounted, InTime, ReadOncePerEnding, StepOk;
    if log == [] {
      NothingYet(plan);
    } else {
      var n := |log| - 1;
      SessionIsSound(log[..n], plan);
      assert log == log[..n] + [log[n]];
      StepIsAccounted(log[..n], log[n], plan);
      StepIsInTime(log[..n], log[n], plan);
      StepIsRead(log[..n], log[n], plan);
    }
  }

  lemma {:induction false} SessionPrefix(log: seq<Effect>, plan: Plan, i: nat)
    requires Session(log, plan) && i <= |log|
    ensures Session(log[..i], plan)
    ensures i < |log| ==> StepOk(log[..i], log[i], plan)
  {
    hide StepOk;
    if i < |log| {
      var n := |log| - 1;
      if i == n {
        assert log[..i] == log[..n];
      } else {
        SessionPrefix(log[..n], plan, i);
        assert log[..n][..i] == log[..i];
      }
    } else {
      assert log[..i] == log;
    }
  }

  /** No prefix of the session has more than `limit` dials running. */
  ghost predicate NeverMoreInFlight(log: seq<Effect>, limit: nat) {
    forall i :: 0 <= i <= |log| ==> |InFlight(log[..i])| <= limit
  }

  /** The `i`-th effect ends a dial that started earlier, exactly as long ago as it took or was allowed. */
  ghost predicate EndsAfterStart(log: seq<Effect>, plan: Plan, i: nat)
    requires i < |log| && log[i].EndDial?
  {
    var wanted, timeout := plan.adapters.dialTime(plan.source, log[i].index), plan.policy.perDialTimeout;
    var lasted := if wanted.Some? then Min(wanted.value, timeout) else timeout;
    exists k :: 0 <= k < i && log[k].StartDial? && log[k].index == log[i].index && log[k].at + lasted == log[i].at
  }

  ghost predicate EndsFollowStarts(log: seq<Effect>, plan: Plan) {
    forall i :: 0 <= i < |log| && log[i].EndDial? ==> EndsAfterStart(log, plan, i)
  }

  ghost predicate TimeAdvances(log: seq<Effect>, from: nat) {
    forall i, j :: 0 <= i <= j <= |log| ==> Moment(log[..i], from) <= Moment(log[..j], from)
  }

  ghost predicate OwnEffects(log: seq<Effect>, source: Phase) {
    forall e :: e in log ==> e.ReadCount? || (e.StartDial? && e.source == source) || (e.EndDial? && e.source == source)
  }

  /** What a session promises whoever pays for it: candidate order, each dial once, never more than the
      limit at a time, every ending exactly its duration after its start, time that never runs
      backwards, and an end within the makespan. */
  ghost predicate Orderly(log: seq<Effect>, plan: Plan, connected: bool) {
    var target, parallel := Max(1, plan.policy.minimumSuccessfulPeers), Max(1, plan.policy.maximumParallelDials);
    && OwnEffects(log, plan.source)
    && Started(log) == UpTo(|Started(log)|) && |Started(log)| <= plan.count
    && NoRepeats(Ended(log)) && EndsFollowStarts(log, plan)
    && NeverMoreInFlight(log, parallel)
    && TimeAdvances(log, plan.from) && plan.from <= Moment(log, plan.from) <= plan.from + Makespan(plan.count, parallel, plan.policy.perDialTimeout)
    && |Readings(log)| == |Ended(log)| && ReadsFrom(log, plan.adapters.reading, plan.firstReading)
    && log != [] && Quiet(log[..|log| - 1], target) && log[|log| - 1].ReadCount?
    && (connected <==> log[|log| - 1].value >= target)
    && (!connected ==> |Started(log)| == plan.count && InFlight(log) == {})
  }

  lemma {:induction false} DueCameFromStart(log: seq<Effect>, plan: Plan, j: nat) returns (k: nat)
    requires j in Due(log, plan)
    ensures k < |log| && log[k].StartDial? && log[k].index == j && log[k].at + plan.Duration(j) == Due(log, plan)[j]
  {
    var n := |log| - 1;
    if log[n].StartDial? && log[n].index == j {
      k := n;
    } else {
      k := DueCameFromStart(log[..n], plan, j);
    }
  }

  lemma SessionEndsFollowStarts(log: seq<Effect>, plan: Plan)
    requires Session(log, plan)
    ensures EndsFollowStarts(log, plan)
  {
    hide Session, Due, Started, Quiet, Readings, Moment;
    forall i | 0 <= i < |log| && log[i].EndDial?
      ensures EndsAfterStart(log, plan, i)
    {
      SessionPrefix(log, plan, i);
      var k := DueCameFromStart(log[..i], plan, log[i].index);
      assert log[..i][k] == log[k];
    }
  }

  lemma SessionStaysInFlight(log: seq<Effect>, plan: Plan)
    requires Session(log, plan)
    ensures NeverMoreInFlight(log, plan.policy.Parallel())
  {
    hide Session, Due, Started, Ended, InFlight, StepOk, InTime, ReadOncePerEnding;
    forall i | 0 <= i <= |log|
      ensures |InFlight(log[..i])| <= plan.policy.Parallel()
    {
      SessionPrefix(log, plan, i);
      SessionIsSound(log[..i], plan);
      assert |Due(log[..i], plan).Keys| == |Due(log[..i], plan)|;
    }
  }

  lemma {:induction false} TimeAdvancesBetween(log: seq<Effect>, plan: Plan, i: nat, j: nat)
    requires Session(log, plan) && i <= j <= |log|
    ensures Moment(log[..i], plan.from) <= Moment(log[..j], plan.from)
    decreases j
  {
    hide Session, StepOk, Moment, Accounted, InTime, ReadOncePerEnding;
    if i < j {
      TimeAdvancesBetween(log, plan, i, j - 1);
      SessionPrefix(log, plan, j - 1);
      SessionIsSound(log[..j - 1], plan);
      StepIsInTime(log[..j - 1], log[j - 1], plan);
      assert log[..j] == log[..j - 1] + [log[j - 1]];
    }
  }

  lemma {:induction false} SessionOwnsEffects(log: seq<Effect>, plan: Plan)
    requires Session(log, plan)
    ensures OwnEffects(log, plan.source)
  {
    hide Due, Started, Quiet, Readings, Moment;
    if log != [] {
      SessionOwnsEffects(log[..|log| - 1], plan);
      assert log == log[..|log| - 1] + [log[|log| - 1]];
    }
  }

  /** Every legal session is orderly, whatever each dial does. */
  lemma SessionIsOrderly(log: seq<Effect>, plan: Plan, connected: bool)
    requires DialLog(log, plan, connected)
    ensures Orderly(log, plan, connected)
  {
    hide Due, Started, Ended, Moment, Readings, InFlight, EndsFollowStarts, NeverMoreInFlight, OwnEffects, OnSchedule, Quiet;
    SessionIsSound(log, plan);
    SessionOwnsEffects(log, plan);
    SessionEndsFollowStarts(log, plan);
    SessionStaysInFlight(log, plan);
    forall i, j | 0 <= i <= j <= |log|
      ensures Moment(log[..i], plan.from) <= Moment(log[..j], plan.from)
    {
      TimeAdvancesBetween(log, plan, i, j);
    }
  }

  // ----- Dialing -----

  /** Some running dial that is due first. */
  method FirstToFinish(running: map<nat, nat>) returns (first: nat)
    requires running != map[]
    ensures first in running && forall j :: j in running ==> running[first] <= running[j]
  {
    var rest := running.Keys;
    first :| first in rest;
    rest := rest - {first};
    while rest != {}
      invariant rest <= running.Keys && first in running
      invariant forall j :: j in running && j !in rest ==> running[first] <= running[j]
      decreases |rest|
    {
      var j :| j in rest;
      rest := rest - {j};
      if running[j] < running[first] {
        first := j;
      }
    }
  }

  /** A session between two effects, with the variables of the loop that runs it. */
  ghost predicate InProgress(log: seq<Effect>, plan: Plan, running: map<nat, nat>, next: nat, now: nat, completed: nat) {
    && Session(log, plan) && Quiet(log, plan.policy.Target()) && !ReadingDue(log)
    && running == Due(log, plan) && |running| <= plan.policy.Parallel()
    && next == |Started(log)| <= plan.count
    && now == Moment(log, plan.from) && completed == |Readings(log)|
  }

  lemma SessionBegins(plan: Plan)
    ensures InProgress([], plan, map[], 0, plan.from, 0)
  {
  }

  lemma NextIsNotRunning(log: seq<Effect>, plan: Plan)
    requires Session(log, plan)
    ensures |Started(log)| !in Due(log, plan)
  {
    hide Session, Due, Started, Ended, InTime, ReadOncePerEnding, NoRepeats;
    SessionIsSound(log, plan);
    assert |Started(log)| !in Due(log, plan).Keys;
  }

  lemma DialStarts(log: seq<Effect>, plan: Plan, running: map<nat, nat>, next: nat, now: nat, completed: nat)
    requires InProgress(log, plan, running, next, now, completed) && next < plan.count && |running| < plan.policy.Parallel()
    ensures var e := StartDial(plan.source, next, now);
      var running' := running[next := now + plan.Duration(next)];
      InProgress(log + [e], plan, running', next + 1, now, completed) && |running'| == |running| + 1
  {
    hide Session, Due, Started, Ended, Moment, Readings;
    var e := StartDial(plan.source, next, now);
    ObserveAppend(log, e);
    SessionAppend(log, e, plan);
    NextIsNotRunning(log, plan);
  }

  lemma DialEnds(log: seq<Effect>, plan: Plan, running: map<nat, nat>, next: nat, now: nat, completed: nat, first: nat, value: nat)
    requires InProgress(log, plan, running, next, now, completed) && (next == plan.count || |running| == plan.policy.Parallel())
    requires first in running && forall j :: j in running ==> running[first] <= running[j]
    requires value == plan.adapters.reading(plan.firstReading + completed)
    ensures var after := log + [EndDial(plan.source, first, running[first])] + [ReadCount(value)];
      && Moment(after, plan.from) == running[first]
      && (value < plan.policy.Target() ==> InProgress(after, plan, running - {first}, next, running[first], completed + 1))
      && (value >= plan.policy.Target() ==> DialLog(after, plan, true))
    ensures |running - {first}| == |running| - 1
  {
    hide Session, Due, Started, Ended, Moment, Readings;
    var end, read := EndDial(plan.source, first, running[first]), ReadCount(value);
    ObserveAppend(log, end);
    SessionAppend(log, end, plan);
    ObserveAppend(log + [end], read);
    SessionAppend(log + [end], read, plan);
    assert running == (running - {first})[first := running[first]];
  }

  lemma DialsExhausted(log: seq<Effect>, plan: Plan, next: nat, now: nat, completed: nat)
    requires InProgress(log, plan, map[], next, now, completed) && next == plan.count >= 1
    ensures DialLog(log, plan, false)
  {
    hide Session, Due, Started, Moment, Readings;
    NothingIsReady(plan);
    SessionOwnsEffects(log, plan);
    assert log[|log| - 1] in log;
    if log[|log| - 1].StartDial? {
      StartIsDue(log, plan);
    }
  }

  lemma NothingIsReady(plan: Plan)
    ensures Started([]) == []
  {
  }

  lemma StartIsDue(log: seq<Effect>, plan: Plan)
    requires log != [] && log[|log| - 1].StartDial?
    ensures Due(log, plan) != map[]
  {
    assert log[|log| - 1].index in Due(log, plan);
  }

  /** Dials candidates in order, at most so many at a time, until a reading reaches the target. */
  method DialCandidates(adapters: Adapters, policy: Policy, peers: seq<Candidate>, source: Phase, t: Trace)
    returns (connected: bool, t': Trace, ghost session: seq<Effect>)
    ensures peers == [] ==> !connected && t' == t && session == []
    ensures peers != [] ==>
      var plan := Plan(adapters, policy, source, |peers|, |Readings(t.effects)|, t.clock);
      DialLog(session, plan, connected) && Orderly(session, plan, connected)
    ensures t'.effects == t.effects + session && t'.clock == Moment(session, t.clock)
    ensures peers != [] ==> t'.transitions == t.transitions + [Dialing] + if connected then [source, Connected] else []
    ensures var slots := Max(1, policy.maximumParallelDials);
      t.clock <= t'.clock <= t.clock + Makespan(|peers|, slots, policy.perDialTimeout)
  {
    hide InProgress, DialLog, Orderly, Moment, Readings, Makespan;
    session := [];
    if peers == [] {
      NoTimePasses(t.clock);
      return false, t, session;
    }
    var transitions := t.transitions + [Dialing];
    var plan := Plan(adapters, policy, source, |peers|, |Readings(t.effects)|, t.clock);
    var log: seq<Effect> := [];
    var running: map<nat, nat> := map[];
    var next, now, completed: nat := 0, t.clock, 0;
    SessionBegins(plan);
    while true
      invariant InProgress(log, plan, running, next, now, completed) && next <= |peers|
      decreases 2 * (|peers| - next) + |running|
    {
      log, running, next := Refill(plan, log, running, next, now, completed);
      if running == map[] {
        break;
      }
      var value, first;
      log, running, now, value, first := AwaitOne(plan, log, running, next, now, completed);
      completed := completed + 1;
      if value >= policy.Target() {
        SessionIsOrderly(log, plan, true);
        OrderlyEndsInTime(log, plan, true);
        session := log;
        transitions := transitions + [source];
        transitions := transitions + [Connected];
        return true, Trace(transitions, t.effects + log, now), session;
      }
    }
    DialsExhausted(log, plan, next, now, completed);
    SessionIsOrderly(log, plan, false);
    OrderlyEndsInTime(log, plan, false);
    ClockIsMoment(log, plan, running, next, now, completed);
    session := log;
    return false, Trace(transitions, t.effects + log, now), session;
  }

  lemma OrderlyEndsInTime(log: seq<Effect>, plan: Plan, connected: bool)
    requires Orderly(log, plan, connected)
    ensures plan.from <= Moment(log, plan.from) <= plan.Latest()
  {
  }

  lemma NoTimePasses(from: nat)
    ensures Moment([], from) == from
  {
  }

  lemma ClockIsMoment(log: seq<Effect>, plan: Plan, running: map<nat, nat>, next: nat, now: nat, completed: nat)
    requires InProgress(log, plan, running, next, now, completed)
    ensures now == Moment(log, plan.from)
  {
  }

  /** Waits for the running dial that is due first, then reads the connectivity. */
  method AwaitOne(plan: Plan, log: seq<Effect>, running: map<nat, nat>, next: nat, now: nat, completed: nat)
    returns (log': seq<Effect>, running': map<nat, nat>, now': nat, value: nat, first: nat)
    requires InProgress(log, plan, running, next, now, completed) && running != map[]
    requires next == plan.count || |running| == plan.policy.Parallel()
    ensures first in running && forall j :: j in running ==> running[first] <= running[j]
    ensures running' == running - {first} && |running'| == |running| - 1 && now' == running[first]
    ensures value == plan.adapters.reading(plan.firstReading + completed)
    ensures log' == log + [EndDial(plan.source, first, now')] + [ReadCount(value)] && Moment(log', plan.from) == now'
    ensures value < plan.policy.Target() ==> InProgress(log', plan, running', next, now', completed + 1)
    ensures value >= plan.policy.Target() ==> DialLog(log', plan, true)
  {
    hide InProgress, DialLog, Moment;
    first := FirstToFinish(running);
    value := plan.adapters.reading(plan.firstReading + completed);
    DialEnds(log, plan, running, next, now, completed, first, value);
    now' := running[first];
    running' := running - {first};
    log' := log + [EndDial(plan.source, first, now')] + [ReadCount(value)];
  }

  /** Starts dials while there are candidates and free slots. */
  method Refill(plan: Plan, log: seq<Effect>, running: map<nat, nat>, next: nat, now: nat, ghost completed: nat)
    returns (log': seq<Effect>, running': map<nat, nat>, next': nat)
    requires InProgress(log, plan, running, next, now, completed) && next <= plan.count
    ensures InProgress(log', plan, running', next', now, completed)
    ensures next <= next' <= plan.count && |running'| == |running| + (next' - next)
    ensures next' == plan.count || |running'| == plan.policy.Parallel()
  {
    hide InProgress;
    log', running', next' := log, running, next;
    RunningWithinLimit(log', plan, running', next', now, completed);
    while next' < plan.count && |running'| < plan.policy.Parallel()
      invariant InProgress(log', plan, running', next', now, completed) && |running'| <= plan.policy.Parallel()
      invariant next <= next' <= plan.count && |running'| == |running| + (next' - next)
    {
      DialStarts(log', plan, running', next', now, completed);
      log' := log' + [StartDial(plan.source, next', now)];
      running' := running'[next' := now + plan.Duration(next')];
      next' := next' + 1;
    }
  }

  lemma RunningWithinLimit(log: seq<Effect>, plan: Plan, running: map<nat, nat>, next: nat, now: nat, completed: nat)
    requires InProgress(log, plan, running, next, now, completed)
    ensures |running| <= plan.policy.Parallel()
  {
  }

  // ----- The cycle -----

  function Sources(effects: seq<Effect>): seq<Phase> {
    if effects == [] then []
    else
      var rest, last := Sources(effects[..|effects| - 1]), effects[|effects| - 1];
      if last.Discover? then rest + [last.source] else rest
  }

  function Offers(peers: seq<Candidate>): (r: seq<Effect>)
    ensures |r| == |peers| && forall i :: 0 <= i < |r| ==> r[i] == Offer(peers[i])
  {
    seq(|peers|, i requires 0 <= i < |peers| => Offer(peers[i]))
  }

  lemma {:induction false} ObserveConcat(a: seq<Effect>, b: seq<Effect>)
    ensures Readings(a + b) == Readings(a) + Readings(b)
    ensures Sources(a + b) == Sources(a) + Sources(b)
  {
    if b == [] {
      assert a + b == a;
    } else {
      var n := |b| - 1;
      ObserveConcat(a, b[..n]);
      assert (a + b)[..|a + b| - 1] == a + b[..n];
    }
  }

  lemma {:induction false} NothingObserved(effects: seq<Effect>)
    requires forall e :: e in effects ==> !e.Discover?
    ensures Sources(effects) == []
    ensures (forall e :: e in effects ==> !e.ReadCount?) ==> Readings(effects) == []
  {
    if effects != [] {
      NothingObserved(effects[..|effects| - 1]);
    }
  }

  ghost predicate OfferedAt(effects: seq<Effect>, peers: seq<Candidate>, k: nat) {
    k + |peers| <= |effects| && effects[k..k + |peers|] == Offers(peers)
  }

  /** Before any dial of a registry candidate, all of them were offered to native discovery in a row. */
  ghost predicate OfferedFirst(effects: seq<Effect>, peers: seq<Candidate>) {
    forall i :: 0 <= i < |effects| && effects[i].StartDial? && effects[i].source == ResurrectScan ==>
      exists k: nat :: OfferedAt(effects, peers, k) && k + |peers| <= i
  }

  function RegistryPeers(adapters: Adapters): seq<Candidate> {
    adapters.registry.GetOr([])
  }

  ghost predicate NoAnnouncement(effects: seq<Effect>) {
    forall i :: 0 <= i < |effects| ==> !effects[i].Announce?
  }

  /** The record of a cycle that has consulted `consulted` and not announced. */
  ghost predicate CycleLog(effects: seq<Effect>, adapters: Adapters, consulted: seq<Phase>) {
    && Sources(effects) == consulted
    && ReadsFrom(effects, adapters.reading, 0)
    && NoAnnouncement(effects)
    && OfferedFirst(effects, RegistryPeers(adapters))
  }

  /** The cycle stopped at a reading that met the target, and at no earlier one. */
  ghost predicate StoppedAtTarget(effects: seq<Effect>, target: nat) {
    && effects != [] && Quiet(effects[..|effects| - 1], target)
    && effects[|effects| - 1].ReadCount? && effects[|effects| - 1].value >= target
  }

  /** The consultation of one source: what it answered, and the dialing session that followed. */
  datatype Consultation = Consultation(plan: Plan, peers: seq<Candidate>, session: seq<Effect>, connected: bool) {
    /** The query, the offers of registry candidates, the session. */
    function Effects(): seq<Effect> {
      [Discover(plan.source)] + (if plan.source == ResurrectScan then Offers(peers) else []) + session
    }

    ghost predicate Ok() {
      && plan.count == |peers|
      && (session == [] <==> peers == []) && (session == [] ==> !connected)
      && (session != [] ==> DialLog(session, plan, connected) && Orderly(session, plan, connected))
    }
  }

  lemma StageIsOffered(c: Consultation)
    requires c.Ok()
    ensures c.plan.source == ResurrectScan ==> OfferedFirst(c.Effects(), c.peers)
    ensures c.plan.source != ResurrectScan ==> forall e :: e in c.Effects() ==> !(e.StartDial? && e.source == ResurrectScan)
    ensures NoAnnouncement(c.Effects())
  {
    hide DialLog, Started, Ended, Readings, NeverMoreInFlight, ReadsFrom, Quiet, EndsFollowStarts, TimeAdvances, Moment, InFlight;
    var stage := c.Effects();
    if c.plan.source == ResurrectScan {
      forall i | 0 <= i < |stage| && stage[i].StartDial?
        ensures exists k: nat :: OfferedAt(stage, c.peers, k) && k + |c.peers| <= i
      {
        assert i >= 1 + |c.peers|;
        assert OfferedAt(stage, c.peers, 1);
      }
    }
    forall i | 0 <= i < |stage|
      ensures !stage[i].Announce?
    {
      assert i >= |stage| - |c.session| ==> stage[i] in c.session;
    }
  }

  lemma StageIsQuiet(c: Consultation)
    requires c.Ok()
    ensures !c.connected ==> Quiet(c.Effects(), c.plan.policy.Target())
    ensures c.connected ==> StoppedAtTarget(c.Effects(), c.plan.policy.Target())
  {
    hide DialLog, Started, Ended, Readings, NeverMoreInFlight, ReadsFrom, EndsFollowStarts, TimeAdvances, Moment, InFlight, OwnEffects;
    var head := [Discover(c.plan.source)] + (if c.plan.source == ResurrectScan then Offers(c.peers) else []);
    assert c.Effects() == head + c.session;
    if c.session != [] {
      var n := |c.session| - 1;
      assert c.session == c.session[..n] + [c.session[n]];
      assert c.Effects()[..|c.Effects()| - 1] == head + c.session[..n];
    }
  }

  lemma StageObserved(c: Consultation)
    requires c.Ok()
    ensures Sources(c.Effects()) == [c.plan.source] && ReadsFrom(c.Effects(), c.plan.adapters.reading, c.plan.firstReading)
  {
    hide DialLog, Started, Ended, NeverMoreInFlight, Quiet, Readings, Sources, EndsFollowStarts, TimeAdvances, Moment, InFlight;
    var offers := if c.plan.source == ResurrectScan then Offers(c.peers) else [];
    ObserveConcat([Discover(c.plan.source)] + offers, c.session);
    ObserveConcat([Discover(c.plan.source)], offers);
    NothingObserved(offers);
    if c.session != [] {
      NothingObserved(c.session);
    }
    SingleSource(c.plan.source);
    EmptyObserved();
    assert c.Effects() == [Discover(c.plan.source)] + offers + c.session;
  }

  lemma EmptyObserved()
    ensures Readings([]) == [] && Sources([]) == []
  {
  }

  lemma SingleSource(source: Phase)
    ensures Sources([Discover(source)]) == [source] && Readings([Discover(source)]) == []
  {
    assert [Discover(source)][..0] == [];
  }

  lemma OfferedConcat(a: seq<Effect>, b: seq<Effect>, peers: seq<Candidate>)
    requires OfferedFirst(a, peers)
    requires OfferedFirst(b, peers) || forall e :: e in b ==> !(e.StartDial? && e.source == ResurrectScan)
    ensures OfferedFirst(a + b, peers)
  {
    var all := a + b;
    forall i | 0 <= i < |all| && all[i].StartDial? && all[i].source == ResurrectScan
      ensures exists k: nat :: OfferedAt(all, peers, k) && k + |peers| <= i
    {
      if i < |a| {
        var k: nat :| OfferedAt(a, peers, k) && k + |peers| <= i;
        assert all[k..k + |peers|] == a[k..k + |peers|];
        assert OfferedAt(all, peers, k);
      } else {
        assert b[i - |a|] in b;
        var k: nat :| OfferedAt(b, peers, k) && k + |peers| <= i - |a|;
        assert all[|a| + k..|a| + k + |peers|] == b[k..k + |peers|];
        assert OfferedAt(all, peers, |a| + k);
      }
    }
  }

  lemma StageExtends(effects: seq<Effect>, c: Consultation, consulted: seq<Phase>)
    requires CycleLog(effects, c.plan.adapters, consulted) && Quiet(effects, c.plan.policy.Target())
    requires c.Ok() && c.plan.firstReading == |Readings(effects)|
    requires c.plan.source == ResurrectScan ==> c.peers == RegistryPeers(c.plan.adapters)
    ensures CycleLog(effects + c.Effects(), c.plan.adapters, consulted + [c.plan.source])
    ensures !c.connected ==> Quiet(effects + c.Effects(), c.plan.policy.Target())
    ensures c.connected ==> StoppedAtTarget(effects + c.Effects(), c.plan.policy.Target())
  {
    hide OfferedFirst, Readings, Sources, Consultation.Ok, Consultation.Effects;
    StageIsOffered(c);
    StageIsQuiet(c);
    StageObserved(c);
    var stage := c.Effects();
    ObserveConcat(effects, stage);
    OfferedConcat(effects, stage, RegistryPeers(c.plan.adapters));
    if c.connected {
      assert (effects + stage)[..|effects + stage| - 1] == effects + stage[..|stage| - 1];
    }
  }

  /** The effects of several consultations in a row. */
  function AllEffects(stages: seq<Consultation>): seq<Effect> {
    if stages == [] then [] else AllEffects(stages[..|stages| - 1]) + stages[|stages| - 1].Effects()
  }

  function ClockAfter(stages: seq<Consultation>): nat {
    if stages == [] then 0 else Moment(stages[|stages| - 1].session, ClockAfter(stages[..|stages| - 1]))
  }

  function AnswerOf(adapters: Adapters, source: Phase): Option<seq<Candidate>> {
    if source == CacheDiscovery then adapters.cache else if source == NativeDiscovery then adapters.native else adapters.registry
  }

  /** A cycle is one reading and then its consultations, each a legal and orderly session over that
      source's answer that begins at the reading and the moment the one before it ended with. */
  ghost predicate Staged(effects: seq<Effect>, clock: nat, stages: seq<Consultation>, adapters: Adapters, policy: Policy) {
    && effects == [ReadCount(adapters.reading(0))] + AllEffects(stages) && clock == ClockAfter(stages)
    && forall i :: 0 <= i < |stages| ==> StagedAt(stages, i, adapters, policy)
  }

  ghost predicate StagedAt(stages: seq<Consultation>, i: nat, adapters: Adapters, policy: Policy)
    requires i < |stages|
  {
    var c, before := stages[i], stages[..i];
    && c.Ok()
    && c.peers == (match c.plan.source
                   case CacheDiscovery => adapters.cache
                   case NativeDiscovery => adapters.native
                   case _ => adapters.registry).GetOr([])
    && c.plan == Plan(adapters, policy, c.plan.source, |c.peers|,
                      |Readings([ReadCount(adapters.reading(0))] + AllEffects(before))|, ClockAfter(before))
  }

  lemma StagedExtends(effects: seq<Effect>, clock: nat, stages: seq<Consultation>, c: Consultation, adapters: Adapters, policy: Policy)
    requires Staged(effects, clock, stages, adapters, policy)
    requires c.Ok() && c.peers == AnswerOf(adapters, c.plan.source).GetOr([])
    requires c.plan == Plan(adapters, policy, c.plan.source, |c.peers|, |Readings(effects)|, clock)
    ensures Staged(effects + c.Effects(), Moment(c.session, clock), stages + [c], adapters, policy)
  {
    hide Readings, Moment, Consultation.Ok, Consultation.Effects;
    var all := stages + [c];
    assert all[..|stages|] == stages;
    forall i | 0 <= i < |all|
      ensures StagedAt(all, i, adapters, policy)
    {
      assert all[..i] == stages[..i];
      if i == |stages| {
        assert stages[..i] == stages;
      } else {
        assert StagedAt(stages, i, adapters, policy);
      }
    }
  }

  // ----- Transition grammar -----

  function Segment(source: Phase, answer: Option<seq<Candidate>>, reached: bool): seq<Phase> {
    [source] + if answer.GetOr([]) == [] then [] else if reached then [Dialing, source, Connected] else [Dialing]
  }

  /** The transitions of a cycle, given where it connected and whether it announced. */
  function Transcript(adapters: Adapters, via: Option<Phase>, announced: bool): seq<Phase> {
    if via == Some(Start) then [Start, Connected]
    else
      [Start] + Segment(CacheDiscovery, adapters.cache, via == Some(CacheDiscovery))
      + if via == Some(CacheDiscovery) then []
        else
          Segment(NativeDiscovery, adapters.native, via == Some(NativeDiscovery))
          + if via == Some(NativeDiscovery) then []
            else
              Segment(ResurrectScan, adapters.registry, via == Some(ResurrectScan))
              + if via == Some(ResurrectScan) then [] else [Isolated] + (if announced then [AnnounceSelf] else []) + [Backoff]
  }

  /** The sources a cycle consults, in order, before it stops. */
  function Consulted(via: Option<Phase>): seq<Phase> {
    if via == Some(Start) then []
    else if via == Some(CacheDiscovery) then [CacheDiscovery]
    else if via == Some(NativeDiscovery) then [CacheDiscovery, NativeDiscovery]
    else [CacheDiscovery, NativeDiscovery, ResurrectScan]
  }

  /** Each source is consulted after, and only after, the one before it failed to connect. */
  lemma ConsultedInOrder()
    ensures Consulted(Some(Start)) == []
    ensures Consulted(Some(CacheDiscovery)) == Consulted(Some(Start)) + [CacheDiscovery]
    ensures Consulted(Some(NativeDiscovery)) == Consulted(Some(CacheDiscovery)) + [NativeDiscovery]
    ensures Consulted(Some(ResurrectScan)) == Consulted(None) == Consulted(Some(NativeDiscovery)) + [ResurrectScan]
  {
  }

  /** Consults one source and dials what it found. */
  method Stage(adapters: Adapters, policy: Policy, source: Phase, answer: Option<seq<Candidate>>, t: Trace, ghost consulted: seq<Phase>)
    returns (connected: bool, t': Trace, ghost c: Consultation)
    requires answer == AnswerOf(adapters, source)
    requires CycleLog(t.effects, adapters, consulted) && Quiet(t.effects, policy.Target())
    ensures c.Ok() && c.connected == connected && c.peers == answer.GetOr([])
    ensures c.plan == Plan(adapters, policy, source, |c.peers|, |Readings(t.effects)|, t.clock)
    ensures t'.effects == t.effects + c.Effects() && t'.clock == Moment(c.session, t.clock)
    ensures CycleLog(t'.effects, adapters, consulted + [source])
    ensures !connected ==> Quiet(t'.effects, policy.Target())
    ensures connected ==> StoppedAtTarget(t'.effects, policy.Target()) && answer.GetOr([]) != []
    ensures t'.transitions == t.transitions + Segment(source, answer, connected)
    ensures t'.clock <= t.clock + Makespan(|answer.GetOr([])|, policy.Parallel(), policy.perDialTimeout)
  {
    hide CycleLog, DialLog, Orderly, Quiet, StoppedAtTarget, Readings, Sources, Makespan, Moment;
    var transitions := t.transitions + [source];
    var effects := t.effects + [Discover(source)];
    if answer.None? {
      c := Consultation(Plan(adapters, policy, source, 0, |Readings(t.effects)|, t.clock), [], [], false);
      NoTimePasses(t.clock);
      StageExtends(t.effects, c, consulted);
      assert c.Effects() == [Discover(source)];
      return false, Trace(transitions, effects, t.clock), c;
    }
    var peers := answer.value;
    if source == ResurrectScan {
      var i := 0;
      while i < |peers|
        invariant 0 <= i <= |peers| && effects == t.effects + [Discover(source)] + Offers(peers)[..i]
      {
        effects := effects + [Offer(peers[i])];
        i := i + 1;
      }
    }
    ghost var head := [Discover(source)] + (if source == ResurrectScan then Offers(peers) else []);
    assert effects == t.effects + head;
    HeadTakesNoReading(t.effects, head);
    ghost var session;
    connected, t', session := DialCandidates(adapters, policy, peers, source, Trace(transitions, effects, t.clock));
    c := Consultation(Plan(adapters, policy, source, |peers|, |Readings(t.effects)|, t.clock), peers, session, connected);
    if peers != [] {
      SessionIsNotEmpty(session, c.plan, connected);
    }
    StageExtends(t.effects, c, consulted);
    assert t'.effects == t.effects + (head + session);
  }

  lemma SessionIsNotEmpty(session: seq<Effect>, plan: Plan, connected: bool)
    requires DialLog(session, plan, connected)
    ensures session != []
  {
  }

  lemma HeadTakesNoReading(effects: seq<Effect>, head: seq<Effect>)
    requires forall e :: e in head ==> !e.ReadCount?
    ensures Readings(effects + head) == Readings(effects)
  {
    ObserveConcat(effects, head);
    NoReadings(head);
  }

  lemma {:induction false} NoReadings(effects: seq<Effect>)
    requires forall e :: e in effects ==> !e.ReadCount?
    ensures Readings(effects) == []
  {
    if effects != [] {
      NoReadings(effects[..|effects| - 1]);
    }
  }

  /** One pass over cache, native discovery and registry, ending connected or isolated. */
  method RunCycle(adapters: Adapters, policy: Policy)
    returns (r: Result<Outcome, string>, t: Trace, ghost stages: seq<Consultation>)
    ensures ResultOk(adapters, r)
    ensures t.effects != [] && NoAnnouncement(t.effects[..|t.effects| - 1])
    ensures r.Success? ==> t.transitions == r.value.transitions && Sources(t.effects) == Consulted(r.value.connectedVia)
    ensures var target := Max(1, policy.minimumSuccessfulPeers);
      if r.Success? && r.value.connectedVia.Some? then StoppedAtTarget(t.effects, target) && NoAnnouncement(t.effects)
      else Quiet(t.effects, target)
    ensures if r.Failure? || r.value.announced then Staged(t.effects[..|t.effects| - 1], t.clock, stages, adapters, policy)
            else Staged(t.effects, t.clock, stages, adapters, policy)
    ensures (r.Failure? || r.value.announced) <==> t.effects[|t.effects| - 1] == Announce(policy.rebootTtl)
    ensures ReadsFrom(t.effects, adapters.reading, 0)
    ensures OfferedFirst(t.effects, adapters.registry.GetOr([]))
    ensures var slots, timeout := Max(1, policy.maximumParallelDials), policy.perDialTimeout;
      t.clock <= Makespan(|adapters.cache.GetOr([])|, slots, timeout)
               + Makespan(|adapters.native.GetOr([])|, slots, timeout)
               + Makespan(|adapters.registry.GetOr([])|, slots, timeout)
  {
    hide OfferedFirst, Readings, Sources, Makespan, ReadsFrom, CycleLog, NoAnnouncement, Quiet, StoppedAtTarget, Transcript, Segment, Failed,
         Consulted, Staged, ResultOk, Consultation.Ok, Consultation.Effects, Moment;
    var count := adapters.reading(0);
    t := Trace([Start], [ReadCount(count)], 0);
    stages := [];
    FirstReading(adapters, policy, count);
    Transcripts(adapters, false);
    ConsultedInOrder();
    if count >= policy.Target() {
      t := Trace([Start, Connected], t.effects, 0);
      ConnectedCycle(t.effects, adapters, policy, Consulted(Some(Start)));
      ConnectedResult(adapters, Start);
      return Success(Outcome(Connected, Some(Start), false, t.transitions)), t, stages;
    }
    var connected;
    ghost var c;
    ghost var u := t;
    connected, t, c := Stage(adapters, policy, CacheDiscovery, adapters.cache, t, Consulted(Some(Start)));
    StagedExtends(u.effects, u.clock, stages, c, adapters, policy);
    stages := stages + [c];
    if connected {
      ConnectedCycle(t.effects, adapters, policy, Consulted(Some(CacheDiscovery)));
      ConnectedResult(adapters, CacheDiscovery);
      return Success(Outcome(Connected, Some(CacheDiscovery), false, t.transitions)), t, stages;
    }
    u := t;
    connected, t, c := Stage(adapters, policy, NativeDiscovery, adapters.native, t, Consulted(Some(CacheDiscovery)));
    StagedExtends(u.effects, u.clock, stages, c, adapters, policy);
    stages := stages + [c];
    if connected {
      ConnectedCycle(t.effects, adapters, policy, Consulted(Some(NativeDiscovery)));
      ConnectedResult(adapters, NativeDiscovery);
      return Success(Outcome(Connected, Some(NativeDiscovery), false, t.transitions)), t, stages;
    }
    u := t;
    connected, t, c := Stage(adapters, policy, ResurrectScan, adapters.registry, t, Consulted(Some(NativeDiscovery)));
    StagedExtends(u.effects, u.clock, stages, c, adapters, policy);
    stages := stages + [c];
    if connected {
      ConnectedCycle(t.effects, adapters, policy, Consulted(Some(ResurrectScan)));
      ConnectedResult(adapters, ResurrectScan);
      return Success(Outcome(Connected, Some(ResurrectScan), false, t.transitions)), t, stages;
    }
    u := t;
    r, t := Promote(adapters, policy, t);
    if adapters.eligible {
      assert t.effects[..|t.effects| - 1] == u.effects;
    } else {
      assert t.effects == u.effects;
    }
  }

  /** What a cycle may report, given what the adapters decided. */
  ghost predicate ResultOk(adapters: Adapters, r: Result<Outcome, string>) {
    match r
    case Failure(error) => adapters.eligible && adapters.announceError == Some(error)
    case Success(o) =>
      && o.transitions == Transcript(adapters, o.connectedVia, o.announced)
      && o.connectedVia in {None, Some(Start), Some(CacheDiscovery), Some(NativeDiscovery), Some(ResurrectScan)}
      && o.state == (if o.connectedVia.Some? then Connected else Backoff)
      && o.announced == (o.connectedVia.None? && adapters.eligible)
      && (o.announced ==> adapters.announceError.None?)
  }

  lemma ConnectedResult(adapters: Adapters, via: Phase)
    requires via in {Start, CacheDiscovery, NativeDiscovery, ResurrectScan}
    ensures ResultOk(adapters, Success(Outcome(Connected, Some(via), false, Transcript(adapters, Some(via), false))))
  {
    hide Transcript;
  }

  /** The isolated end of a cycle: announce if eligible, then back off. */
  method Promote(adapters: Adapters, policy: Policy, t: Trace) returns (r: Result<Outcome, string>, t': Trace)
    requires CycleLog(t.effects, adapters, Consulted(None)) && Quiet(t.effects, policy.Target())
    requires t.transitions == Failed(adapters)
    ensures r.Success? ==>
      && r.value == Outcome(Backoff, None, adapters.eligible, t'.transitions)
      && t'.transitions == Transcript(adapters, None, adapters.eligible)
      && !(adapters.eligible && adapters.announceError.Some?)
    ensures r.Failure? ==> adapters.eligible && adapters.announceError == Some(r.error)
    ensures ResultOk(adapters, r)
    ensures t'.effects == t.effects + if adapters.eligible then [Announce(policy.rebootTtl)] else []
    ensures Quiet(t'.effects, policy.Target()) && Sources(t'.effects) == Consulted(None)
    ensures t'.effects != [] && NoAnnouncement(t'.effects[..|t'.effects| - 1])
    ensures adapters.eligible <==> t'.effects[|t'.effects| - 1] == Announce(policy.rebootTtl)
    ensures ReadsFrom(t'.effects, adapters.reading, 0) && OfferedFirst(t'.effects, RegistryPeers(adapters)) && t'.clock == t.clock
  {
    hide OfferedFirst, Readings, Sources, ReadsFrom, CycleLog, NoAnnouncement, Quiet, Transcript, Segment, Failed;
    Transcripts(adapters, adapters.eligible);
    IsolatedCycle(t.effects, adapters, Consulted(None));
    var transitions := t.transitions + [Isolated];
    var effects := t.effects;
    var announced := false;
    if adapters.eligible {
      transitions := transitions + [AnnounceSelf];
      AnnouncementIsLast(t.effects, adapters, policy);
      effects := t.effects + [Announce(policy.rebootTtl)];
      if adapters.announceError.Some? {
        return Failure(adapters.announceError.value), Trace(transitions, effects, t.clock);
      }
      announced := true;
    }
    transitions := transitions + [Backoff];
    return Success(Outcome(Backoff, None, announced, transitions)), Trace(transitions, effects, t.clock);
  }

  lemma FirstReading(adapters: Adapters, policy: Policy, count: nat)
    requires count == adapters.reading(0)
    ensures CycleLog([ReadCount(count)], adapters, [])
    ensures count < policy.Target() ==> Quiet([ReadCount(count)], policy.Target())
    ensures count >= policy.Target() ==> StoppedAtTarget([ReadCount(count)], policy.Target())
    ensures Staged([ReadCount(count)], 0, [], adapters, policy)
  {
    assert [ReadCount(count)][..0] == [];
  }

  lemma ConnectedCycle(effects: seq<Effect>, adapters: Adapters, policy: Policy, consulted: seq<Phase>)
    requires CycleLog(effects, adapters, consulted) && StoppedAtTarget(effects, policy.Target())
    ensures Sources(effects) == consulted && ReadsFrom(effects, adapters.reading, 0) && OfferedFirst(effects, RegistryPeers(adapters))
    ensures effects != [] && NoAnnouncement(effects) && NoAnnouncement(effects[..|effects| - 1])
    ensures !effects[|effects| - 1].Announce?
  {
  }

  lemma IsolatedCycle(effects: seq<Effect>, adapters: Adapters, consulted: seq<Phase>)
    requires CycleLog(effects, adapters, consulted) && consulted != []
    ensures Sources(effects) == consulted && ReadsFrom(effects, adapters.reading, 0) && OfferedFirst(effects, RegistryPeers(adapters))
    ensures effects != [] && NoAnnouncement(effects) && NoAnnouncement(effects[..|effects| - 1])
    ensures !effects[|effects| - 1].Announce?
  {
  }

  /** What one source leaves in the transcript: its own entry, a dialing phase exactly when it named
      candidates, and its entry again when a dial reached the target. */
  lemma SegmentSpelled(source: Phase, peers: seq<Candidate>)
    ensures Segment(source, None, false) == Segment(source, Some([]), false) == [source]
    ensures peers != [] ==> Segment(source, Some(peers), false) == [source, Dialing]
    ensures peers != [] ==> Segment(source, Some(peers), true) == [source, Dialing, source, Connected]
  {
  }

  /** The transcripts, spelled out phase by phase. */
  lemma Transcripts(adapters: Adapters, announced: bool)
    ensures Transcript(adapters, Some(Start), false) == [Start, Connected]
    ensures Transcript(adapters, Some(CacheDiscovery), false) == [Start] + Segment(CacheDiscovery, adapters.cache, true)
    ensures Transcript(adapters, Some(NativeDiscovery), false)
         == [Start] + Segment(CacheDiscovery, adapters.cache, false) + Segment(NativeDiscovery, adapters.native, true)
    ensures Transcript(adapters, Some(ResurrectScan), false)
         == [Start] + Segment(CacheDiscovery, adapters.cache, false) + Segment(NativeDiscovery, adapters.native, false)
            + Segment(ResurrectScan, adapters.registry, true)
    ensures [Start] + Segment(CacheDiscovery, adapters.cache, false) + Segment(NativeDiscovery, adapters.native, false)
            + Segment(ResurrectScan, adapters.registry, false) == Failed(adapters)
    ensures Transcript(adapters, None, announced) == Failed(adapters) + [Isolated] + (if announced then [AnnounceSelf] else []) + [Backoff]
  {
    hide Segment;
  }

  /** All three sources consulted in vain. */
  function Failed(adapters: Adapters): seq<Phase> {
    [Start] + Segment(CacheDiscovery, adapters.cache, false) + Segment(NativeDiscovery, adapters.native, false)
    + Segment(ResurrectScan, adapters.registry, false)
  }

  lemma InSegment(source: Phase, answer: Option<seq<Candidate>>, reached: bool, p: Phase)
    requires p in Segment(source, answer, reached)
    ensures p == source || p == Dialing || (reached && p == Connected)
  {
  }

  lemma InFailed(adapters: Adapters, p: Phase)
    requires p in Failed(adapters)
    ensures p in {Start, CacheDiscovery, NativeDiscovery, ResurrectScan, Dialing}
  {
    hide Segment;
    if p in Segment(CacheDiscovery, adapters.cache, false) {
      InSegment(CacheDiscovery, adapters.cache, false, p);
    } else if p in Segment(NativeDiscovery, adapters.native, false) {
      InSegment(NativeDiscovery, adapters.native, false, p);
    } else if p != Start {
      InSegment(ResurrectScan, adapters.registry, false, p);
    }
  }

  /** The observable trace of an isolated cycle announces exactly when the outcome says so, and
      never claims a connection. */
  lemma IsolatedTranscript(adapters: Adapters, announced: bool)
    ensures var ts := Transcript(adapters, None, announced);
      && (AnnounceSelf in ts <==> announced) && Connected !in ts && ts[|ts| - 1] == Backoff
  {
    hide Failed, Transcript;
    Transcripts(adapters, announced);
    forall p | p in Failed(adapters)
      ensures p in {Start, CacheDiscovery, NativeDiscovery, ResurrectScan, Dialing}
    {
      InFailed(adapters, p);
    }
  }

  lemma AnnouncementIsLast(effects: seq<Effect>, adapters: Adapters, policy: Policy)
    requires CycleLog(effects, adapters, Consulted(None)) && Quiet(effects, policy.Target())
    ensures var all := effects + [Announce(policy.rebootTtl)];
      && Sources(all) == Consulted(None) && ReadsFrom(all, adapters.reading, 0) && Quiet(all, policy.Target())
      && OfferedFirst(all, RegistryPeers(adapters)) && all[..|all| - 1] == effects
  {
    hide OfferedFirst, Readings, Sources;
    var last := [Announce(policy.rebootTtl)];
    ObserveConcat(effects, last);
    NothingObserved(last);
    OfferedConcat(effects, last, RegistryPeers(adapters));
  }
}
