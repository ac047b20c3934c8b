/** The on-chain beacon (contracts/src/ResurrectBeaconV1.sol). */
module Beacon {
  import opened Common

  const VERSION: u32 := 1
  const MAX_TTL: u32 := 7_776_000
  const MAX_RECORD_BYTES: u32 := 4096

  datatype PeerAnnounced = PeerAnnounced(namespace: seq<byte>, recordType: u32, validUntil: u64, peerRecord: seq<byte>)

  datatype BeaconError = InvalidTTL(supplied: u32) | RecordTooLarge(length: nat) | ArithmeticPanic

  /** The event one call emits in a block of the given timestamp; the uint64 sum is checked. */
  function Announce(namespace: seq<byte>, recordType: u32, ttl: u32, peerRecord: seq<byte>, blockTimestamp: nat)
    : (r: Result<PeerAnnounced, BeaconError>)
    ensures r.Success? <==>
              && 0 < ttl <= MAX_TTL && 0 < |peerRecord| <= MAX_RECORD_BYTES as nat
              && blockTimestamp % (U64_MAX as nat + 1) + ttl as nat <= U64_MAX as nat
    ensures r.Success? && blockTimestamp <= U64_MAX as nat ==> r.value.validUntil as nat == blockTimestamp + ttl as nat
    ensures r.Success? ==> r.value.peerRecord == peerRecord && r.value.namespace == namespace && r.value.recordType == recordType
  {
    if ttl == 0 || ttl > MAX_TTL then Failure(InvalidTTL(ttl))
    else if |peerRecord| == 0 || |peerRecord| > MAX_RECORD_BYTES as nat then Failure(RecordTooLarge(|peerRecord|))
    else
      var now := blockTimestamp % (U64_MAX as nat + 1);
      if now + ttl as nat > U64_MAX as nat then Failure(ArithmeticPanic)
      else Success(PeerAnnounced(namespace, recordType, (now + ttl as nat) as u64, peerRecord))
  }
}

/** Announcement envelopes and their validation (crates/resurrect-core/src/validation.rs). */
module Validation {
  import opened Common
  import opened Candidates

  datatype Announcement = Announcement(
    namespace: seq<byte>,
    recordType: u32,
    validUntil: u64,
    peerRecord: seq<byte>,
    blockNumber: u64,
    logIndex: u64)

  datatype DialContext = NativeServer | Browser | Mobile | RestrictedEgress

  datatype Policy = Policy(
    expectedNamespace: seq<byte>,
    acceptedRecordTypes: seq<u32>,
    chainTime: u64,
    maxRecordBytes: nat,
    maxEndpoints: nat,
    dialContext: DialContext)

  datatype PeerRecordError =
    | InvalidSize(length: nat)
    | Malformed(reason: string)
    | InvalidSignature
    | IdentityMismatch
    | NoUsableEndpoint(context: DialContext)
    | TooManyEndpoints(limit: nat)

  datatype AnnouncementError =
    | WrongNamespace
    | UnsupportedRecordType(recordType: u32)
    | Expired(validUntil: u64, chainTime: u64)
    | InvalidRecordSize(length: nat)
    | CodecTypeMismatch(announced: u32, decoded: u32)
    | PeerRecord(error: PeerRecordError)

  /** Verification and decoding of a signed record: any deterministic function. */
  type Codec = (seq<byte>, DialContext) -> Result<Candidate, PeerRecordError>

  function Validate(codecs: map<u32, Codec>, a: Announcement, policy: Policy): Result<Candidate, AnnouncementError> {
    if a.namespace != policy.expectedNamespace then Failure(WrongNamespace)
    else if a.recordType !in policy.acceptedRecordTypes then Failure(UnsupportedRecordType(a.recordType))
    else if a.validUntil <= policy.chainTime then Failure(Expired(a.validUntil, policy.chainTime))
    else if |a.peerRecord| == 0 || |a.peerRecord| > policy.maxRecordBytes then Failure(InvalidRecordSize(|a.peerRecord|))
    else if a.recordType !in codecs then Failure(UnsupportedRecordType(a.recordType))
    else
      match codecs[a.recordType](a.peerRecord, policy.dialContext)
      case Failure(error) => Failure(PeerRecord(error))
      case Success(candidate) =>
        if candidate.recordType != a.recordType then Failure(CodecTypeMismatch(a.recordType, candidate.recordType))
        else if |candidate.endpoints| > policy.maxEndpoints then Failure(PeerRecord(TooManyEndpoints(policy.maxEndpoints)))
        else Success(candidate.(
          expiresAt := a.validUntil,
          source := ResurrectRegistry,
          announcementBlock := Some(a.blockNumber),
          announcementLogIndex := Some(a.logIndex)))
  }

  /** An announcement every envelope check of the policy lets through. */
  predicate EnvelopeOk(a: Announcement, policy: Policy) {
    && a.namespace == policy.expectedNamespace
    && a.recordType in policy.acceptedRecordTypes
    && a.validUntil > policy.chainTime
    && 0 < |a.peerRecord| <= policy.maxRecordBytes
  }

  /** A bad envelope is refused with an error that no choice of codecs can influence, and
      an accepted candidate is unexpired, bounded, of the announced codec, and carries the
      announcement's own chain position. */
  lemma ValidationGuards(codecs: map<u32, Codec>, others: map<u32, Codec>, a: Announcement, policy: Policy)
    ensures !EnvelopeOk(a, policy) ==>
              Validate(codecs, a, policy).Failure? && Validate(codecs, a, policy) == Validate(others, a, policy)
    ensures Validate(codecs, a, policy).Success? ==>
              var c := Validate(codecs, a, policy).value;
              && EnvelopeOk(a, policy) && a.recordType in codecs
              && c.recordType == a.recordType && |c.endpoints| <= policy.maxEndpoints
              && c.expiresAt == a.validUntil > policy.chainTime
              && c.announcementBlock == Some(a.blockNumber) && c.announcementLogIndex == Some(a.logIndex)
  {
  }

  /** The announcement is live, of admissible size, and its codec decodes it to `c`, a record of the
      announced type with few enough endpoints. */
  ghost predicate Vouches(codec: Codec, context: DialContext, now: u64, maxRecordBytes: nat, maxEndpoints: nat, a: Announcement, c: Candidate) {
    && a.validUntil > now && 0 < |a.peerRecord| <= maxRecordBytes
    && codec(a.peerRecord, context) == Success(c)
    && c.recordType == a.recordType && |c.endpoints| <= maxEndpoints
  }

  /** `listed` is the decoded record, stamped with the announcement's expiry and chain position. */
  ghost predicate Carries(listed: Candidate, a: Announcement, c: Candidate) {
    && listed.recordType == c.recordType && listed.peerId == c.peerId && listed.sequence == c.sequence
    && listed.endpoints == c.endpoints && listed.rawSignedRecord == c.rawSignedRecord
    && listed.expiresAt == a.validUntil && listed.source == ResurrectRegistry
    && listed.announcementBlock == Some(a.blockNumber) && listed.announcementLogIndex == Some(a.logIndex)
  }

  ghost predicate Admitted(codecs: map<u32, Codec>, policy: Policy, a: Announcement, c: Candidate) {
    && a.namespace == policy.expectedNamespace && a.recordType in policy.acceptedRecordTypes && a.recordType in codecs
    && Vouches(codecs[a.recordType], policy.dialContext, policy.chainTime, policy.maxRecordBytes, policy.maxEndpoints, a, c)
  }

  /** Validation lets through exactly the admitted announcements, and yields what they carry. */
  lemma ValidationIsExact(codecs: map<u32, Codec>, policy: Policy, a: Announcement)
    ensures Validate(codecs, a, policy).Success? <==> exists c :: Admitted(codecs, policy, a, c)
    ensures forall c :: Admitted(codecs, policy, a, c) ==>
              Validate(codecs, a, policy).Success? && Carries(Validate(codecs, a, policy).value, a, c)
  {
    if Validate(codecs, a, policy).Success? {
      assert Admitted(codecs, policy, a, codecs[a.recordType](a.peerRecord, policy.dialContext).value);
    }
  }

  /** The candidates a policy lets through, in arrival order. */
  function Accepted(codecs: map<u32, Codec>, policy: Policy, logs: seq<Announcement>): (r: seq<Candidate>)
    ensures |r| <= |logs|
  {
    if logs == [] then []
    else
      var n := |logs| - 1;
      var before := Accepted(codecs, policy, logs[..n]);
      match Validate(codecs, logs[n], policy)
      case Success(c) => before + [c]
      case Failure(_) => before
  }

  lemma {:induction false} AcceptedConcat(codecs: map<u32, Codec>, policy: Policy, a: seq<Announcement>, b: seq<Announcement>)
    ensures Accepted(codecs, policy, a + b) == Accepted(codecs, policy, a) + Accepted(codecs, policy, b)
  {
    if b == [] {
      assert a + b == a;
    } else {
      var n := |b| - 1;
      AcceptedConcat(codecs, policy, a, b[..n]);
      assert (a + b)[..|a + b| - 1] == a + b[..n];
      assert (a + b)[|a + b| - 1] == b[n];
    }
  }

  lemma {:induction false} AcceptedNone(codecs: map<u32, Codec>, policy: Policy, logs: seq<Announcement>)
    requires forall i :: 0 <= i < |logs| ==> logs[i].validUntil <= policy.chainTime
    ensures Accepted(codecs, policy, logs) == []
  {
    if logs != [] {
      AcceptedNone(codecs, policy, logs[..|logs| - 1]);
    }
  }

  lemma {:induction false} AcceptedContains(codecs: map<u32, Codec>, policy: Policy, logs: seq<Announcement>, a: Announcement)
    requires a in logs && Validate(codecs, a, policy).Success?
    ensures Validate(codecs, a, policy).value in Accepted(codecs, policy, logs)
  {
    var n := |logs| - 1;
    if a != logs[n] {
      assert a in logs[..n];
      AcceptedContains(codecs, policy, logs[..n], a);
    }
  }

  lemma {:induction false} AcceptedComesFrom(codecs: map<u32, Codec>, policy: Policy, logs: seq<Announcement>, c: Candidate)
    returns (a: Announcement)
    requires c in Accepted(codecs, policy, logs)
    ensures a in logs && Validate(codecs, a, policy) == Success(c)
  {
    var n := |logs| - 1;
    a := logs[n];
    if Validate(codecs, a, policy) != Success(c) {
      a := AcceptedComesFrom(codecs, policy, logs[..n], c);
    }
  }
}

/** The registry chain as a fixed view, and a provider that answers from it or refuses. */
module RegistryChain {
  import opened Common
  import opened Validation
  import Beacon

  datatype BlockInfo = BlockInfo(number: u64, timestamp: u64, hash: seq<byte>)

  /** One canonical chain: block headers up to `tip`, and the registry logs of each block. */
  datatype Chain = Chain(tip: u64, timestamp: nat -> u64, hash: nat -> seq<byte>, logsOf: nat -> seq<Announcement>) {
    function BlockAt(n: u64): Option<BlockInfo> {
      if n <= tip then Some(BlockInfo(n, timestamp(n as nat), hash(n as nat))) else None
    }

    /** All registry logs of the blocks in [from, until), in chain order. */
    function Logs(from: nat, until: nat): seq<Announcement>
      decreases until
    {
      if from >= until then [] else Logs(from, until - 1) + logsOf(until - 1)
    }

    lemma {:induction false} LogsSplit(from: nat, middle: nat, until: nat)
      requires from <= middle <= until
      ensures Logs(from, until) == Logs(from, middle) + Logs(middle, until)
      decreases until
    {
      if middle < until {
        LogsSplit(from, middle, until - 1);
      }
    }

    lemma {:induction false} LogsComeFromBlocks(from: nat, until: nat, a: Announcement) returns (b: nat)
      requires a in Logs(from, until)
      ensures from <= b < until && a in logsOf(b)
      decreases until
    {
      b := until - 1;
      if a !in logsOf(b) {
        b := LogsComeFromBlocks(from, until - 1, a);
      }
    }

    lemma {:induction false} LogsContain(from: nat, until: nat, b: nat, a: Announcement)
      requires from <= b < until && a in logsOf(b)
      ensures a in Logs(from, until)
      decreases until
    {
      if b < until - 1 {
        LogsContain(from, until - 1, b, a);
      }
    }

    ghost predicate NonDecreasing() {
      forall a: nat, b: nat :: a <= b ==> timestamp(a) <= timestamp(b)
    }

    /** Every log of a block is an event the beacon emits at that block's timestamp. */
    ghost predicate FromBeacon() {
      forall b: nat, a :: a in logsOf(b) ==> Emitted(a, timestamp(b))
    }
  }

  ghost predicate EmittedWith(a: Announcement, at: u64, ttl: u32) {
    Beacon.Announce(a.namespace, a.recordType, ttl, a.peerRecord, at as nat)
    == Success(Beacon.PeerAnnounced(a.namespace, a.recordType, a.validUntil, a.peerRecord))
  }

  ghost predicate Emitted(a: Announcement, at: u64) {
    exists ttl :: EmittedWith(a, at, ttl)
  }

  /** A beacon event lives for at least one second and at most MAX_TTL after its block. */
  lemma EmittedLifetime(a: Announcement, at: u64)
    requires Emitted(a, at)
    ensures at as nat < a.validUntil as nat <= at as nat + Beacon.MAX_TTL as nat
  {
    var ttl :| EmittedWith(a, at, ttl);
  }

  datatype RegistryConstants = RegistryConstants(version: u32, maxTtl: u32, maxRecordBytes: u32)

  datatype ProviderError =
    | Configuration(reason: string)
    | Request(reason: string)
    | RangeLimit(reason: string)
    | Unsupported(reason: string)
    | Missing(what: string)
    | ReadOnly

  /** What a provider does with one call: answer truthfully, or fail. */
  datatype Verdict = Answer | Refuse(error: ProviderError)

  /** The answer to a finality tag: a block of the chain, no block, or an error. */
  datatype TagAnswer = Known(number: u64) | Absent | TagError(error: ProviderError)

  /** An adversarial provider over one chain. The verdict on a log query may depend on how
      many log queries came before it, so any pattern of refusals over time is covered. */
  datatype Provider = Provider(
    chain: Chain,
    chainId: Result<nat, ProviderError>,
    constants: Result<RegistryConstants, ProviderError>,
    finalized: TagAnswer,
    safe: TagAnswer,
    latest: TagAnswer,
    blockVerdict: u64 -> Verdict,
    logVerdict: (nat, u64, u64) -> Verdict)
  {
    function Tagged(tag: TagAnswer): Result<Option<BlockInfo>, ProviderError> {
      match tag
      case Known(n) => Success(chain.BlockAt(n))
      case Absent => Success(None)
      case TagError(error) => Failure(error)
    }

    function Block(n: u64): Result<Option<BlockInfo>, ProviderError> {
      match blockVerdict(n)
      case Answer => Success(chain.BlockAt(n))
      case Refuse(error) => Failure(error)
    }

    function Announcements(query: nat, from: u64, to: u64): Result<seq<Announcement>, ProviderError> {
      match logVerdict(query, from, to)
      case Answer => Success(chain.Logs(from as nat, to as nat + 1))
      case Refuse(error) => Failure(error)
    }
  }
}
