/** Self-announcement and renewal (crates/resurrect-node/src/registry.rs). Times are whole seconds. */
module Renewal {
  import opened Common
  import opened Candidates
  import Beacon
  import RegistryChain
  import Scanner

  const DAY: u64 := 86_400

  function SaturatingSub(a: u64, b: u64): u64 {
    if a >= b then a - b else 0
  }

  function MinU64(a: u64, b: u64): u64 {
    if a <= b then a else b
  }

  /** Half the lifetime, but no longer than the configured interval. */
  function BaseRenewal(interval: u64, ttl: u32): u64 {
    var half := ttl / 2;
    MinU64(interval, (if half >= 1 then half else 1) as u64)
  }

  function JitterWindow(base: u64, ttl: u64): u64 {
    MinU64(MinU64(DAY, SaturatingSub(base, 1)), SaturatingSub(SaturatingSub(ttl, base), 1))
  }

  /** `draw` is the random number taken from 0 to twice the window. */
  function JitteredRenewal(base: u64, ttl: u64, draw: u64): u64
    requires draw as int <= 2 * JitterWindow(base, ttl) as int
  {
    var window := JitterWindow(base, ttl);
    if window == 0 then base else Scanner.SaturatingAdd(SaturatingSub(base, window), draw)
  }

  function RenewalDelay(interval: u64, ttl: u32, draw: u64): u64
    requires draw as int <= 2 * JitterWindow(BaseRenewal(interval, ttl), ttl as u64) as int
  {
    JitteredRenewal(BaseRenewal(interval, ttl), ttl as u64, draw)
  }

  /** Whatever is drawn, the renewal comes strictly inside the lifetime and within a day of half of it
      (or of the interval); the two degenerate inputs are exactly a zero interval and a lifetime of
      at most one second. */
  lemma RenewalInsideLifetime(interval: u64, ttl: u32, draw: u64)
    requires draw as int <= 2 * JitterWindow(BaseRenewal(interval, ttl), ttl as u64) as int
    ensures var delay := RenewalDelay(interval, ttl, draw);
      && (delay >= 1 <==> interval >= 1)
      && (delay < ttl as u64 <==> ttl >= 2 || (ttl == 1 && interval == 0))
      && BaseRenewal(interval, ttl) as int == Min(interval as int, Max(ttl as int / 2, 1))
      && BaseRenewal(interval, ttl) as int - 86_400 <= delay as int <= BaseRenewal(interval, ttl) as int + 86_400
  {
    var base := BaseRenewal(interval, ttl);
    assert base <= interval && (ttl >= 2 ==> base <= (ttl / 2) as u64);
  }

  /** The window is the widest that keeps the delay within a day of the base, positive, and strictly
      inside the lifetime. */
  lemma JitterWindowIsWidest(base: u64, ttl: u64, width: nat)
    requires 1 <= base < ttl
    ensures width <= JitterWindow(base, ttl) as nat <==> width <= 86_400 && base as int - width >= 1 && base as int + width < ttl as int
  {
  }

  /** Every delay of the window around the base can be drawn, and none outside it. */
  lemma RenewalCoversWindow(base: u64, ttl: u64, delay: u64) returns (draw: u64)
    requires base as int - JitterWindow(base, ttl) as int <= delay as int <= base as int + JitterWindow(base, ttl) as int
    ensures draw as int <= 2 * JitterWindow(base, ttl) as int && JitteredRenewal(base, ttl, draw) == delay
  {
    draw := delay - (base - JitterWindow(base, ttl));
  }

  datatype AnnounceError =
    | TypeNotAccepted
    | TtlTooLong
    | TtlOutOfBounds
    | ChainMismatch
    | ConstantsMismatch
    | ProviderFailed
    | SigningFailed
    | ClockFailed

  /** What the outside decides during one announcement. */
  datatype Environment = Environment(
    chainId: Option<nat>,
    constants: Option<RegistryChain.RegistryConstants>,
    signs: bool,
    submits: bool,
    now: Option<u64>)

  /** A record that reached the registry. */
  datatype Published = Published(sequence: u64, ttl: u32)

  class RegistryAnnouncer {
    const descriptor: Scanner.Descriptor
    const eligible: bool
    const interval: u64
    var sequence: u64
    var nextRenewal: u64
    var published: seq<Published>
    ghost const first: u64
    /** How many sequence numbers have been taken. */
    ghost var taken: nat

    /** Until the counter wraps, every record published carries a higher sequence than all before it. */
    ghost predicate Valid()
      reads this
    {
      first as nat + taken <= U64_MAX as nat ==>
        && sequence as nat == first as nat + taken
        && (forall i :: 0 <= i < |published| ==> published[i].sequence < sequence)
        && (forall i, j :: 0 <= i < j < |published| ==> published[i].sequence < published[j].sequence)
    }

    constructor (descriptor: Scanner.Descriptor, eligible: bool, interval: u64, sequence: u64)
      ensures Valid() && published == [] && nextRenewal == 0 && this.sequence == first == sequence && taken == 0
      ensures this.descriptor == descriptor && this.eligible == eligible && this.interval == interval
    {
      this.descriptor, this.eligible, this.interval, this.sequence := descriptor, eligible, interval, sequence;
      nextRenewal, published, first, taken := 0, [], sequence, 0;
    }

    predicate RenewalDue(now: Option<u64>)
      reads this
    {
      eligible && now.Some? && now.value >= nextRenewal
    }

    /** Why nothing may be published, if anything; the sequence is taken only after these checks. */
    function Obstacle(ttl: u64, env: Environment): (r: Option<AnnounceError>)
      ensures r.None? <==>
        && 2 in descriptor.acceptedRecordTypes && 1 <= ttl <= 7_776_000 && descriptor.maxTtlSeconds == 7_776_000
        && env.chainId == Some(descriptor.chainId) && env.constants == Some(RegistryChain.RegistryConstants(1, 7_776_000, 4096))
    {
      if RECORD_TYPE_LIBP2P !in descriptor.acceptedRecordTypes then Some(TypeNotAccepted)
      else if ttl > U32_MAX as u64 then Some(TtlTooLong)
      else if ttl == 0 || ttl > descriptor.maxTtlSeconds as u64 then Some(TtlOutOfBounds)
      else if env.chainId.None? then Some(ProviderFailed)
      else if env.chainId.value != descriptor.chainId then Some(ChainMismatch)
      else if env.constants.None? then Some(ProviderFailed)
      else if !Scanner.ConstantsOk(env.constants.value, descriptor) then Some(ConstantsMismatch)
      else None
    }

    method Announce(ttl: u64, env: Environment, draw: u64) returns (r: Result<(), AnnounceError>)
      requires Valid()
      requires ttl <= U32_MAX as u64 ==> draw as int <= 2 * JitterWindow(BaseRenewal(interval, ttl as u32), ttl) as int
      modifies this
      ensures Valid()
      ensures r.Success? <==> !eligible || (Obstacle(ttl, env).None? && env.signs && env.submits && env.now.Some?)
      ensures if eligible && Obstacle(ttl, env).None? && env.signs && env.submits
              then ttl <= Beacon.MAX_TTL as u64 && published == old(published) + [Published(old(sequence), ttl as u32)]
              else published == old(published)
      ensures taken == old(taken) + (if eligible && Obstacle(ttl, env).None? then 1 else 0)
      ensures r.Failure? || !eligible ==> nextRenewal == old(nextRenewal)
      ensures r.Success? && eligible ==>
                nextRenewal as int == Min(env.now.value as int + RenewalDelay(interval, ttl as u32, draw) as int, U64_MAX as int)
      ensures r.Failure? && published != old(published) <==>
                eligible && Obstacle(ttl, env).None? && env.signs && env.submits && env.now.None?
      ensures r.Success? && eligible && interval >= 1 && ttl >= 2 && env.now != Some(U64_MAX) ==> !RenewalDue(env.now)
      ensures r.Success? && eligible && interval >= 1 && ttl >= 2 ==>
                forall t: u64 :: t as int >= env.now.value as int + ttl as int - 1 ==> RenewalDue(Some(t))
    {
      if !eligible {
        return Success(());
      }
      var obstacle := Obstacle(ttl, env);
      if obstacle.Some? {
        return Failure(obstacle.value);
      }
      var seconds := ttl as u32;
      var record := sequence;
      sequence := if sequence == U64_MAX then 0 else sequence + 1;
      taken := taken + 1;
      if !env.signs {
        return Failure(SigningFailed);
      }
      if !env.submits {
        return Failure(ProviderFailed);
      }
      published := published + [Published(record, seconds)];
      if env.now.None? {
        return Failure(ClockFailed);
      }
      RenewalInsideLifetime(interval, seconds, draw);
      nextRenewal := Scanner.SaturatingAdd(env.now.value, RenewalDelay(interval, seconds, draw));
      return Success(());
    }
  }

  /** A renewed record always displaces the earlier ones from any candidate store, until the
      sequence counter wraps. */
  lemma RenewalIsFresher(earlier: Candidate, later: Candidate, announcer: RegistryAnnouncer, i: nat, j: nat)
    requires announcer.Valid() && announcer.first as nat + announcer.taken <= U64_MAX as nat
    requires i < j < |announcer.published|
    requires earlier.sequence == announcer.published[i].sequence && later.sequence == announcer.published[j].sequence
    ensures Fresher(later, earlier)
  {
  }
}
