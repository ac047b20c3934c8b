/** Retry delays and the long-running loop (crates/resurrect-node/src/supervisor.rs). */
module Supervisor {
  import opened Common
  import Bootstrap

  /** Whole nanoseconds, up to the largest representable duration. */
  const DURATION_MAX: nat := 18_446_744_073_709_551_615_999_999_999
  type Duration = n: nat | n <= DURATION_MAX

  const LARGEST_SHIFT: nat := 20

  /** A left shift of 1 in a 32-bit word, refused when it would shift the whole word out. */
  function CheckedShift(n: nat): Option<nat> {
    if n < 32 then Some(Pow2(n) % 0x1_0000_0000) else None
  }

  function SaturatingMul(d: Duration, factor: nat): Duration {
    if d * factor <= DURATION_MAX then d * factor else DURATION_MAX
  }

  function ExponentialBackoff(initial: Duration, maximum: Duration, attempt: u32): Duration {
    var product := SaturatingMul(initial, CheckedShift(Min(attempt as int, LARGEST_SHIFT)).GetOr(U32_MAX as nat));
    if product <= maximum then product else maximum
  }

  lemma {:induction false} Pow2Grows(a: nat, b: nat)
    requires a <= b
    ensures Pow2(a) <= Pow2(b)
    decreases b - a
  {
    if a < b {
      Pow2Grows(a + 1, b);
    }
  }

  lemma Pow2OfLargest()
    ensures Pow2(LARGEST_SHIFT) == 0x10_0000
  {
    assert Pow2(4) == 16;
    assert Pow2(8) == 256;
    assert Pow2(12) == 4096;
    assert Pow2(16) == 65536;
  }

  /** Neither the shift nor the saturating product ever shows: the delay is the initial one doubled
      per attempt, at most twenty times, and capped. */
  lemma BackoffIsExponential(initial: Duration, maximum: Duration, attempt: u32)
    ensures ExponentialBackoff(initial, maximum, attempt) == Min(initial * Pow2(Min(attempt as int, 20)), maximum)
  {
    hide Pow2;
    Pow2Grows(Min(attempt as int, LARGEST_SHIFT), LARGEST_SHIFT);
    Pow2OfLargest();
  }

  lemma BackoffGrows(initial: Duration, maximum: Duration, a: u32, b: u32)
    requires a <= b
    ensures ExponentialBackoff(initial, maximum, a) <= ExponentialBackoff(initial, maximum, b) <= maximum
  {
    hide Pow2, ExponentialBackoff;
    BackoffIsExponential(initial, maximum, a);
    BackoffIsExponential(initial, maximum, b);
    Pow2Grows(Min(a as int, LARGEST_SHIFT), Min(b as int, LARGEST_SHIFT));
    ProductGrows(Pow2(Min(a as int, LARGEST_SHIFT)), Pow2(Min(b as int, LARGEST_SHIFT)), initial);
  }

  /** The upper end of the random draw, in nanoseconds. */
  function JitterSpan(base: Duration): nat {
    Min(base - base / 2, U64_MAX as int)
  }

  /** `random` is any natural number, reduced to the inclusive range of the draw. */
  function Jittered(base: Duration, random: nat): Duration {
    var delay := base / 2 + random % (JitterSpan(base) + 1);
    if delay <= DURATION_MAX then delay else DURATION_MAX
  }

  function BackoffWithJitter(initial: Duration, maximum: Duration, attempt: u32, random: nat): Duration {
    Jittered(ExponentialBackoff(initial, maximum, attempt), random)
  }

  /** Despite rounding and saturation the delay stays between half the base and the base. */
  lemma JitterStaysInRange(base: Duration, random: nat)
    ensures base / 2 <= Jittered(base, random) <= base / 2 + Min(base - base / 2, 0xFFFF_FFFF_FFFF_FFFF) <= base
  {
    RemainderBelow(random, JitterSpan(base) + 1);
  }

  lemma RemainderBelow(n: nat, m: nat)
    requires m > 0
    ensures 0 <= n % m < m
  {
  }

  /** Every delay of that range can be drawn, and the range reaches the whole base unless half of it
      overflows a 64-bit count of nanoseconds. */
  lemma JitterCoversRange(base: Duration, delay: Duration) returns (random: nat)
    requires base / 2 <= delay <= base / 2 + Min(base - base / 2, 0xFFFF_FFFF_FFFF_FFFF)
    ensures Jittered(base, random) == delay
    ensures base / 2 + Min(base - base / 2, 0xFFFF_FFFF_FFFF_FFFF) == base <==> base - base / 2 <= 0xFFFF_FFFF_FFFF_FFFF
  {
    random := delay - base / 2;
    SmallRemainder(random, JitterSpan(base) + 1);
  }

  lemma SmallRemainder(n: nat, m: nat)
    requires n < m
    ensures n % m == n
  {
  }

  // ----- The loop -----

  datatype Policy = Policy(
    bootstrap: Bootstrap.Policy,
    connectedPollInterval: Duration,
    initialBackoff: Duration,
    maximumBackoff: Duration,
    maintenanceTtl: nat)

  /** What the outside decides during one turn of the loop. */
  datatype Turn = Turn(
    reading: nat,
    renewalDue: bool,
    announceError: Option<string>,
    adapters: Bootstrap.Adapters,
    readingAfter: nat,
    random: nat,
    statusWritable: bool,
    shutdown: bool)

  datatype NodeStatus = NodeStatus(
    state: Bootstrap.Phase,
    connectedPeers: nat,
    connectedVia: Option<Bootstrap.Phase>,
    transitions: seq<Bootstrap.Phase>,
    lastError: Option<string>)

  /** What one turn did: a healthy poll, or a cycle and the pause after it, if any. */
  datatype Entry =
    | Healthy(status: NodeStatus, announcedTtl: Option<nat>, pause: Option<Duration>)
    | Cycled(result: Result<Bootstrap.Outcome, string>, status: NodeStatus, pause: Option<Duration>)
  {
    predicate Unconnected() {
      Cycled? && !(result.Success? && result.value.state == Bootstrap.Connected)
    }

    predicate Waits() {
      pause.Some?
    }
  }

  datatype End = ShutDown | StatusLost | Running

  /** Unconnected cycles since the last connected turn, as the 32-bit counter has them. */
  function Attempts(log: seq<Entry>): u32 {
    if log == [] || !log[|log| - 1].Unconnected() then 0
    else
      var before := Attempts(log[..|log| - 1]);
      if before == U32_MAX then U32_MAX else before + 1
  }

  /** The source of the most recent cycle that connected. */
  function LastVia(log: seq<Entry>): Option<Bootstrap.Phase> {
    if log == [] then None
    else
      var last := log[|log| - 1];
      if last.Cycled? && last.result.Success? && last.result.value.connectedVia.Some? then last.result.value.connectedVia
      else LastVia(log[..|log| - 1])
  }

  predicate ConnectedThrough(entry: Entry, source: Bootstrap.Phase) {
    entry.Cycled? && entry.result.Success? && entry.result.value.connectedVia == Some(source)
  }

  ghost predicate LastThrough(log: seq<Entry>, i: nat, source: Bootstrap.Phase)
    requires i < |log|
  {
    ConnectedThrough(log[i], source) && forall j, other :: i < j < |log| ==> !ConnectedThrough(log[j], other)
  }

  /** The remembered source is that of the last cycle that connected, and none before any did. */
  lemma {:induction false} LastViaIsLatest(log: seq<Entry>)
    ensures LastVia(log).Some? ==> exists i :: 0 <= i < |log| && LastThrough(log, i, LastVia(log).value)
    ensures LastVia(log).None? ==> forall i, other :: 0 <= i < |log| ==> !ConnectedThrough(log[i], other)
  {
    if log != [] {
      var n := |log| - 1;
      LastViaIsLatest(log[..n]);
      if LastVia(log).Some? && ConnectedThrough(log[n], LastVia(log).value) {
        assert LastThrough(log, n, LastVia(log).value);
      } else if LastVia(log).Some? {
        var i :| 0 <= i < n && LastThrough(log[..n], i, LastVia(log).value);
        assert LastThrough(log, i, LastVia(log).value);
      }
    }
  }

  function HealthyEntry(policy: Policy, turn: Turn, before: seq<Entry>): Entry {
    Healthy(NodeStatus(Bootstrap.Connected, turn.reading, LastVia(before), [Bootstrap.Connected],
                       if turn.renewalDue then turn.announceError else None),
            if turn.renewalDue then Some(policy.maintenanceTtl) else None,
            Some(policy.connectedPollInterval))
  }

  function StatusAfter(result: Result<Bootstrap.Outcome, string>, reading: nat): NodeStatus {
    match result
    case Success(outcome) => NodeStatus(outcome.state, reading, outcome.connectedVia, outcome.transitions, None)
    case Failure(error) => NodeStatus(Bootstrap.Backoff, reading, None, [Bootstrap.Backoff], Some(error))
  }

  ghost predicate EntryOk(policy: Policy, turn: Turn, before: seq<Entry>, entry: Entry) {
    if turn.reading >= Max(1, policy.bootstrap.minimumSuccessfulPeers) then
      && entry.Healthy?
      && entry.status.state == Bootstrap.Connected && entry.status.connectedPeers == turn.reading
      && entry.status.connectedVia == LastVia(before) && entry.status.transitions == [Bootstrap.Connected]
      && entry.status.lastError == (if turn.renewalDue then turn.announceError else None)
      && entry.announcedTtl == (if turn.renewalDue then Some(policy.maintenanceTtl) else None)
      && entry.pause == Some(policy.connectedPollInterval)
    else
      && entry.Cycled?
      && entry.status.connectedPeers == turn.readingAfter
      && (match entry.result
          case Success(outcome) =>
            && entry.status.state == outcome.state && entry.status.connectedVia == outcome.connectedVia
            && entry.status.transitions == outcome.transitions && entry.status.lastError.None?
          case Failure(error) =>
            && entry.status.state == Bootstrap.Backoff && entry.status.connectedVia.None?
            && entry.status.transitions == [Bootstrap.Backoff] && entry.status.lastError == Some(error))
      && Bootstrap.ResultOk(turn.adapters, entry.result)
      && entry.pause == if entry.Unconnected()
                        then Some(BackoffWithJitter(policy.initialBackoff, policy.maximumBackoff, Attempts(before), turn.random))
                        else None
  }

  ghost predicate LogOk(policy: Policy, turns: seq<Turn>, log: seq<Entry>) {
    |log| <= |turns| && forall i :: 0 <= i < |log| ==> EntryOk(policy, turns[i], log[..i], log[i])
  }

  /** No turn before `n` met a shutdown while waiting, or lost its status file. */
  ghost predicate NotEnded(turns: seq<Turn>, log: seq<Entry>, n: nat)
    requires n <= |log| <= |turns|
  {
    forall i :: 0 <= i < n ==> turns[i].statusWritable && !(turns[i].shutdown && log[i].Waits())
  }

  method Run(policy: Policy, turns: seq<Turn>) returns (log: seq<Entry>, end: End)
    ensures LogOk(policy, turns, log)
    ensures match end
      case Running => |log| == |turns| && NotEnded(turns, log, |log|)
      case ShutDown => log != [] && NotEnded(turns, log, |log| - 1) && turns[|log| - 1].shutdown && log[|log| - 1].Waits()
      case StatusLost => |log| < |turns| && NotEnded(turns, log, |log|) && !turns[|log|].statusWritable
  {
    hide BackoffWithJitter, EntryOk, Attempts, LastVia, Bootstrap.ResultOk, Bootstrap.Staged, Bootstrap.StoppedAtTarget, Bootstrap.Quiet,
         Bootstrap.OfferedFirst, Bootstrap.ReadsFrom;
    log, end := [], Running;
    var attempts: u32 := 0;
    var lastConnectedVia: Option<Bootstrap.Phase> := None;
    EmptyLog();
    while |log| < |turns|
      invariant LogOk(policy, turns, log) && NotEnded(turns, log, |log|)
      invariant attempts == Attempts(log) && lastConnectedVia == LastVia(log)
      decreases |turns| - |log|
    {
      var turn := turns[|log|];
      ghost var before := log;
      if turn.reading >= policy.bootstrap.Target() {
        attempts := 0;
        var lastError, announcedTtl := None, None;
        if turn.renewalDue {
          lastError, announcedTtl := turn.announceError, Some(policy.maintenanceTtl);
        }
        if !turn.statusWritable {
          return log, StatusLost;
        }
        var entry := Healthy(NodeStatus(Bootstrap.Connected, turn.reading, lastConnectedVia, [Bootstrap.Connected], lastError),
                             announcedTtl, Some(policy.connectedPollInterval));
        HealthyStep(policy, turn, before);
        log := log + [entry];
        LogGrows(policy, turns, before, entry);
        if turn.shutdown {
          return log, ShutDown;
        }
      } else {
        var result, _, _ := Bootstrap.RunCycle(turn.adapters, policy.bootstrap);
        if result.Success? && result.value.connectedVia.Some? {
          lastConnectedVia := result.value.connectedVia;
        }
        var status := StatusAfter(result, turn.readingAfter);
        if !turn.statusWritable {
          return log, StatusLost;
        }
        var connected := result.Success? && result.value.state == Bootstrap.Connected;
        var pause := if connected then None
                     else Some(BackoffWithJitter(policy.initialBackoff, policy.maximumBackoff, attempts, turn.random));
        CycleStep(policy, turn, before, result, pause);
        attempts := if connected then 0 else if attempts == U32_MAX then U32_MAX else attempts + 1;
        log := log + [Cycled(result, status, pause)];
        LogGrows(policy, turns, before, Cycled(result, status, pause));
        if turn.shutdown && pause.Some? {
          return log, ShutDown;
        }
      }
    }
  }

  lemma EmptyLog()
    ensures Attempts([]) == 0 && LastVia([]) == None
  {
  }

  lemma HealthyStep(policy: Policy, turn: Turn, before: seq<Entry>)
    requires turn.reading >= policy.bootstrap.Target()
    ensures var entry := HealthyEntry(policy, turn, before);
      EntryOk(policy, turn, before, entry) && Attempts(before + [entry]) == 0 && LastVia(before + [entry]) == LastVia(before)
  {
    var entry := HealthyEntry(policy, turn, before);
    assert (before + [entry])[..|before|] == before;
  }

  lemma CycleStep(policy: Policy, turn: Turn, before: seq<Entry>, result: Result<Bootstrap.Outcome, string>, pause: Option<Duration>)
    requires turn.reading < policy.bootstrap.Target()
    requires Bootstrap.ResultOk(turn.adapters, result)
    requires pause == if result.Success? && result.value.state == Bootstrap.Connected then None
                      else Some(BackoffWithJitter(policy.initialBackoff, policy.maximumBackoff, Attempts(before), turn.random))
    ensures var entry := Cycled(result, StatusAfter(result, turn.readingAfter), pause);
      && EntryOk(policy, turn, before, entry)
      && Attempts(before + [entry]) == (if !entry.Unconnected() then 0 else if Attempts(before) == U32_MAX then U32_MAX else Attempts(before) + 1)
      && LastVia(before + [entry]) == (if result.Success? && result.value.connectedVia.Some? then result.value.connectedVia else LastVia(before))
  {
    hide Bootstrap.ResultOk;
    var entry := Cycled(result, StatusAfter(result, turn.readingAfter), pause);
    assert (before + [entry])[..|before|] == before;
  }

  lemma LogGrows(policy: Policy, turns: seq<Turn>, log: seq<Entry>, entry: Entry)
    requires LogOk(policy, turns, log) && |log| < |turns| && EntryOk(policy, turns[|log|], log, entry)
    ensures LogOk(policy, turns, log + [entry])
  {
    hide EntryOk;
    var all := log + [entry];
    forall i | 0 <= i < |all|
      ensures EntryOk(policy, turns[i], all[..i], all[i])
    {
      assert all[..i] == log[..i];
    }
  }

  lemma {:induction false} AttemptsCount(log: seq<Entry>, i: nat, j: nat)
    requires i <= j <= |log| && forall k :: i <= k < j ==> log[k].Unconnected()
    ensures Attempts(log[..j]) as int == Min(Attempts(log[..i]) as int + j - i, U32_MAX as int)
    decreases j - i
  {
    if i < j {
      AttemptsCount(log, i, j - 1);
      assert log[..j][..j - 1] == log[..j - 1];
    }
  }

  /** The delay before jitter at the `j`-th turn. */
  function BaseDelay(policy: Policy, log: seq<Entry>, j: nat): Duration
    requires j <= |log|
  {
    ExponentialBackoff(policy.initialBackoff, policy.maximumBackoff, Attempts(log[..j]))
  }

  /** Over a stretch of unconnected cycles the delay before jitter never decreases and never
      exceeds the maximum. */
  lemma DelaysNeverDecrease(policy: Policy, log: seq<Entry>, i: nat, j: nat)
    requires i <= j <= |log| && forall k :: i <= k < j ==> log[k].Unconnected()
    ensures BaseDelay(policy, log, i) <= BaseDelay(policy, log, j) <= policy.maximumBackoff
  {
    hide ExponentialBackoff, Attempts;
    AttemptsCount(log, i, j);
    BackoffGrows(policy.initialBackoff, policy.maximumBackoff, Attempts(log[..i]), Attempts(log[..j]));
  }

  /** After a connected turn, or at the start, the delays start over and double from cycle to cycle. */
  lemma DelaysDouble(policy: Policy, log: seq<Entry>, i: nat, j: nat)
    requires i <= j <= |log| && forall k :: i <= k < j ==> log[k].Unconnected()
    requires i == 0 || !log[i - 1].Unconnected()
    ensures BaseDelay(policy, log, j) == Min(policy.initialBackoff * Pow2(Min(j - i, 20)), policy.maximumBackoff)
  {
    hide ExponentialBackoff, Attempts, Pow2;
    AttemptsCount(log, i, j);
    StartsOver(log, i);
    BackoffIsExponential(policy.initialBackoff, policy.maximumBackoff, Attempts(log[..j]));
    assert Min(Attempts(log[..j]) as int, LARGEST_SHIFT) == Min(j - i, LARGEST_SHIFT);
  }

  /** Every unconnected cycle is followed by a pause between half of that delay and all of it. */
  lemma PauseAfterUnconnected(policy: Policy, turns: seq<Turn>, log: seq<Entry>, j: nat)
    requires LogOk(policy, turns, log) && j < |log| && log[j].Unconnected()
    ensures log[j].pause.Some? && BaseDelay(policy, log, j) / 2 <= log[j].pause.value <= BaseDelay(policy, log, j)
  {
    hide ExponentialBackoff, Attempts, Jittered, JitterSpan, LastVia;
    assert EntryOk(policy, turns[j], log[..j], log[j]);
    JitterStaysInRange(BaseDelay(policy, log, j), turns[j].random);
  }

  lemma StartsOver(log: seq<Entry>, i: nat)
    requires i <= |log| && (i == 0 || !log[i - 1].Unconnected())
    ensures Attempts(log[..i]) == 0
  {
  }
}
