/** The recent-window registry scanner (crates/resurrect-ethereum/src/scanner.rs). */
module Scanner {
  import opened Common
  import opened Candidates
  import opened Validation
  import opened RegistryChain
  import opened LogQueries
  import Beacon

  datatype ScannerConfig = ScannerConfig(
    initialChunkSize: u64,
    minimumChunkSize: u64,
    maxLogsPerScan: nat,
    maxCandidates: nat,
    maxEndpointsPerRecord: nat,
    fallbackConfirmations: u64,
    useFinalityTags: bool,
    dialContext: DialContext)

  datatype Descriptor = Descriptor(
    version: u32,
    chainId: nat,
    deploymentBlock: u64,
    maxTtlSeconds: u32,
    namespace: seq<byte>,
    acceptedRecordTypes: seq<u32>)
  {
    /** The cross-field invariants of a v1 descriptor. */
    predicate WellFormed() {
      && version == Beacon.VERSION
      && maxTtlSeconds == Beacon.MAX_TTL
      && acceptedRecordTypes != []
      && forall i, j :: 0 <= i < j < |acceptedRecordTypes| ==> acceptedRecordTypes[i] != acceptedRecordTypes[j]
    }
  }

  datatype Checkpoint = Checkpoint(number: u64, hash: seq<byte>)

  datatype ScanError =
    | InvalidDescriptor
    | WrongChain(expected: nat, actual: nat)
    | BadConstants(constants: RegistryConstants)
    | MissingBlock(what: string)
    | DeploymentAfterHead(deployment: u64, head: u64)
    | ProviderFailed(error: ProviderError)

  datatype ScanReport = ScanReport(
    startBlock: u64,
    head: BlockInfo,
    checkpoint: Checkpoint,
    reorgDetected: bool,
    logsProcessed: nat,
    recordsRejected: nat,
    chunkReductions: nat,
    candidates: seq<Candidate>)

  datatype LogScanOutcome = LogScanOutcome(
    logsProcessed: nat,
    recordsRejected: nat,
    chunkReductions: nat,
    candidates: seq<Candidate>)

  // ----- Timestamp binary search -----

  /** The least block of [deployment, head] at or after the cutoff, or `head` when none is. */
  ghost predicate IsStartBlock(chain: Chain, deployment: nat, head: nat, cutoff: u64, start: nat) {
    && deployment <= start <= head
    && AllEarlier(chain, deployment, start, cutoff)
    && (start < head ==> chain.timestamp(start) >= cutoff)
  }

  ghost predicate AllEarlier(chain: Chain, from: nat, until: nat, cutoff: u64) {
    forall b: nat :: from <= b < until ==> chain.timestamp(b) < cutoff
  }

  lemma NothingEarlier(chain: Chain, from: nat, cutoff: u64)
    ensures AllEarlier(chain, from, from, cutoff)
  {
  }

  lemma EarlierGrows(chain: Chain, from: nat, until: nat, middle: nat, cutoff: u64)
    requires chain.NonDecreasing() && AllEarlier(chain, from, until, cutoff)
    requires until <= middle && chain.timestamp(middle) < cutoff
    ensures AllEarlier(chain, from, middle + 1, cutoff)
  {
  }

  method FindStartBlock(provider: Provider, deployment: u64, head: u64, cutoff: u64)
    returns (r: Result<u64, ScanError>, ghost blocks: seq<u64>)
    ensures r.Success? && deployment <= head && provider.chain.NonDecreasing() ==>
              IsStartBlock(provider.chain, deployment as nat, head as nat, cutoff, r.value as nat)
    ensures r.Success? && deployment <= head ==> deployment <= r.value <= head
    ensures deployment > head ==> r == Success(head)
    ensures deployment >= head ==> blocks == []
    ensures blocks != [] ==> Pow2(|blocks| - 1) <= head as nat - deployment as nat
    ensures ReadOnce(blocks, deployment, head)
    ensures r.Success? ==> AllRead(provider, blocks)
    ensures r.Failure? ==> blocks != [] && AllRead(provider, blocks[..|blocks| - 1]) && BlockFault(provider, blocks[|blocks| - 1], r.error)
  {
    blocks := [];
    NothingRead(provider, deployment, head);
    if deployment >= head {
      return Success(if deployment <= head then deployment else head), blocks;
    }
    NothingEarlier(provider.chain, deployment as nat, cutoff);
    hide SearchBudget, Pow2, BlockFault, AllRead, ReadOnce, ReadOutside, AllEarlier, Chain.NonDecreasing;
    var low, high := deployment, head;
    ghost var width: nat := head as nat - deployment as nat;
    SearchBegins(width);
    while low < high
      invariant deployment <= low <= high <= head
      invariant provider.chain.NonDecreasing() ==> AllEarlier(provider.chain, deployment as nat, low as nat, cutoff)
      invariant high < head ==> provider.chain.timestamp(high as nat) >= cutoff
      invariant SearchBudget(high as nat - low as nat, |blocks|, width)
      invariant ReadOnce(blocks, deployment, head) && ReadOutside(blocks, low, high)
      invariant AllRead(provider, blocks)
      decreases high as nat - low as nat
    {
      var middle := low + (high - low) / 2;
      var block := provider.Block(middle);
      ghost var before := blocks;
      blocks := blocks + [middle];
      assert blocks[..|blocks| - 1] == before && blocks[|blocks| - 1] == middle;
      ReadAnother(before, deployment, head, low, middle, high);
      match block {
        case Failure(error) =>
          SearchFault(provider, middle, ProviderFailed(error));
          SearchReads(high as nat - low as nat, |before|, width);
          return Failure(ProviderFailed(error)), blocks;
        case Success(None) =>
          SearchFault(provider, middle, MissingBlock("timestamp-search"));
          SearchReads(high as nat - low as nat, |before|, width);
          return Failure(MissingBlock("timestamp-search")), blocks;
        case Success(Some(info)) =>
          ReadMore(provider, before, middle);
          ghost var remaining := high as nat - low as nat;
          if info.timestamp < cutoff {
            if provider.chain.NonDecreasing() {
              EarlierGrows(provider.chain, deployment as nat, low as nat, middle as nat, cutoff);
            }
            low := middle + 1;
          } else {
            high := middle;
          }
          SearchHalves(high as nat - low as nat, remaining, |before|, width);
      }
    }
    SearchEnds(high as nat - low as nat, |blocks|, width);
    return Success(low), blocks;
  }

  /** Each read was of another block below the head. */
  ghost predicate ReadOnce(blocks: seq<u64>, deployment: u64, head: u64) {
    && (forall n :: n in blocks ==> deployment <= n < head)
    && (forall i, j :: 0 <= i < j < |blocks| ==> blocks[i] != blocks[j])
  }

  /** Each read was answered with a block. */
  ghost predicate AllRead(provider: Provider, blocks: seq<u64>) {
    forall n :: n in blocks ==> provider.Block(n).Success? && provider.Block(n).value.Some?
  }

  /** No block between the bounds has been read. */
  ghost predicate ReadOutside(blocks: seq<u64>, low: u64, high: u64) {
    forall n :: n in blocks ==> n < low || n >= high
  }

  lemma ReadAnother(blocks: seq<u64>, deployment: u64, head: u64, low: u64, middle: u64, high: u64)
    requires ReadOnce(blocks, deployment, head) && ReadOutside(blocks, low, high) && deployment <= low <= middle < high <= head
    ensures ReadOnce(blocks + [middle], deployment, head)
    ensures ReadOutside(blocks + [middle], middle + 1, high) && ReadOutside(blocks + [middle], low, middle)
  {
    assert forall i :: 0 <= i < |blocks| ==> blocks[i] in blocks;
  }

  lemma NothingRead(provider: Provider, deployment: u64, head: u64)
    ensures AllRead(provider, []) && ReadOnce([], deployment, head) && ReadOutside([], deployment, head)
  {
  }

  lemma ReadMore(provider: Provider, blocks: seq<u64>, n: u64)
    requires AllRead(provider, blocks) && provider.Block(n).Success? && provider.Block(n).value.Some?
    ensures AllRead(provider, blocks + [n])
  {
  }

  /** Reading block `n` is what made the search fail with `error`. */
  ghost predicate BlockFault(provider: Provider, n: u64, error: ScanError) {
    match provider.Block(n)
    case Failure(e) => error == ProviderFailed(e)
    case Success(None) => error == MissingBlock("timestamp-search")
    case Success(Some(_)) => false
  }

  lemma SearchFault(provider: Provider, n: u64, error: ScanError)
    requires provider.Block(n) == (match error case ProviderFailed(e) => Failure(e) case _ => Success(None))
    requires error.ProviderFailed? || error == MissingBlock("timestamp-search")
    ensures BlockFault(provider, n, error)
  {
  }

  /** The remaining width halves with every read. */
  ghost predicate SearchBudget(remaining: nat, readCount: nat, width: nat) {
    remaining * Pow2(readCount) <= width && (readCount >= 1 ==> Pow2(readCount - 1) <= width)
  }

  lemma SearchBegins(width: nat)
    ensures SearchBudget(width, 0, width)
  {
  }

  lemma SearchReads(remaining: nat, readCount: nat, width: nat)
    requires remaining >= 1 && SearchBudget(remaining, readCount, width)
    ensures Pow2(readCount) <= width
  {
    ProductGrows(1, remaining, Pow2(readCount));
  }

  lemma SearchHalves(half: nat, remaining: nat, readCount: nat, width: nat)
    requires remaining >= 1 && half <= remaining / 2 && SearchBudget(remaining, readCount, width)
    ensures SearchBudget(half, readCount + 1, width)
  {
    SearchReads(remaining, readCount, width);
    var p := Pow2(readCount);
    HalfTimesDouble(remaining, p);
    ProductGrows(half, remaining / 2, 2 * p);
  }

  lemma SearchEnds(remaining: nat, readCount: nat, width: nat)
    requires SearchBudget(remaining, readCount, width)
    ensures readCount >= 1 ==> Pow2(readCount - 1) <= width
  {
  }

  // ----- Adaptive chunked log scan -----

  function PolicyFor(config: ScannerConfig, descriptor: Descriptor, constants: RegistryConstants, chainTime: u64): Policy {
    Policy(descriptor.namespace, descriptor.acceptedRecordTypes, chainTime, constants.maxRecordBytes as nat,
           config.maxEndpointsPerRecord, config.dialContext)
  }

  /** Exactly the first `max` logs of a window, each once and in order, were counted,
      judged and sampled. */
  ghost predicate ScannedExactly(config: ScannerConfig, codecs: map<u32, Codec>, policy: Policy, score: Score,
                                 window: seq<Announcement>, out: LogScanOutcome) {
    var taken := window[..Min(config.maxLogsPerScan, |window|)];
    && out.logsProcessed == |taken|
    && out.logsProcessed == out.recordsRejected + |Accepted(codecs, policy, taken)|
    && IsRankedSample(Max(config.maxCandidates, 1), score, Accepted(codecs, policy, taken), out.candidates)
  }

  method ScanLogs(config: ScannerConfig, codecs: map<u32, Codec>, provider: Provider, policy: Policy,
                  score: Score, startBlock: u64, head: u64)
    returns (r: Result<LogScanOutcome, ScanError>, queries: nat, ghost asked: seq<Query>)
    requires startBlock <= head
    ensures queries == |asked|
    ensures r.Success? ==> ScannedExactly(config, codecs, policy, score, provider.chain.Logs(startBlock as nat, head as nat + 1), r.value)
    ensures var w := Window(provider, startBlock, head, Max(config.initialChunkSize as int, 1), Max(config.minimumChunkSize as int, 1));
      match r
      case Success(out) =>
        && CoveredBy(w, asked, Next(w, asked), out.chunkReductions)
        && (out.logsProcessed < config.maxLogsPerScan ==> Next(w, asked) == head as nat + 1)
      case Failure(failure) => failure.ProviderFailed? && Stopped(w, asked, failure.error)
  {
    hide CandidateStore.Valid, Chain.Logs, InStep, CoveredBy, Stopped, Next, ScannedExactly, ConsumedUpTo,
         IsSample, IsRankedSample, Accepted, IsRanking;
    var store := new CandidateStore(config.maxCandidates, score);
    var logsProcessed: nat, recordsRejected: nat, chunkReductions: nat := 0, 0, 0;
    var chunkSize: u64 := if config.initialChunkSize >= 1 then config.initialChunkSize else 1;
    var minimumChunkSize: u64 := if config.minimumChunkSize >= 1 then config.minimumChunkSize else 1;
    var from := startBlock;
    var finished := false;
    ghost var next: nat := startBlock as nat;
    ghost var w := Window(provider, startBlock, head, Max(config.initialChunkSize as int, 1), Max(config.minimumChunkSize as int, 1));
    queries, asked := 0, [];
    StepBegins(w);
    NothingConsumed(config, codecs, policy, provider.chain, next);

    while !finished && from <= head && logsProcessed < config.maxLogsPerScan
      invariant store.Valid() && fresh(store) && store.maxCandidates == Max(config.maxCandidates, 1) && store.score == score
      invariant InStep(w, asked, next, chunkSize as nat, chunkReductions) && queries == |asked|
      invariant chunkSize >= 1 && minimumChunkSize as nat == w.minimum
      invariant if finished then next == head as nat + 1 else from as nat == next <= head as nat
      invariant ConsumedUpTo(config, codecs, policy, provider.chain, startBlock as nat, next, logsProcessed, recordsRejected, store.seen)
      decreases head as nat + 1 - next, chunkSize
    {
      var to := SaturatingAdd(from, chunkSize - 1);
      if to > head {
        to := head;
      }
      ghost var q := Query(from, to);
      match provider.Announcements(queries, from, to) {
        case Failure(error) =>
          queries := queries + 1;
          if error.RangeLimit? && chunkSize > minimumChunkSize {
            StepRefused(w, asked, next, chunkSize as nat, chunkReductions, q);
            chunkSize := if chunkSize / 2 >= minimumChunkSize then chunkSize / 2 else minimumChunkSize;
            chunkReductions := chunkReductions + 1;
            asked := asked + [q];
          } else {
            StepStopped(w, asked, next, chunkSize as nat, chunkReductions, q, error);
            asked := asked + [q];
            return Failure(ProviderFailed(error)), queries, asked;
          }
        case Success(announcements) =>
          queries := queries + 1;
          StepAnswered(w, asked, next, chunkSize as nat, chunkReductions, q);
          logsProcessed, recordsRejected := TakeChunk(config, codecs, policy, store, announcements, logsProcessed, recordsRejected,
                                                      provider.chain, startBlock as nat, from as nat, to as nat);
          asked := asked + [q];
          next := to as nat + 1;
          if to == head {
            finished := true;
          } else {
            from := to + 1;
          }
      }
    }

    var candidates := store.Ranked();
    ScanEnds(config, codecs, policy, score, provider.chain, startBlock as nat, next, head as nat + 1, store.seen,
             LogScanOutcome(logsProcessed, recordsRejected, chunkReductions, candidates));
    StepCovers(w, asked, next, chunkSize as nat, chunkReductions);
    NextIs(w, asked, next, chunkReductions);
    return Success(LogScanOutcome(logsProcessed, recordsRejected, chunkReductions, candidates)), queries, asked;
  }

  lemma NextIs(w: Window, asked: seq<Query>, next: nat, reductions: nat)
    requires CoveredBy(w, asked, next, reductions)
    ensures next == Next(w, asked)
  {
  }

  /** The blocks from `start` up to (not including) `next` have been consumed. */
  ghost predicate ConsumedUpTo(config: ScannerConfig, codecs: map<u32, Codec>, policy: Policy, chain: Chain, start: nat, next: nat,
                               processed: nat, rejected: nat, seen: seq<Candidate>) {
    start <= next && Consumed(config.maxLogsPerScan, codecs, policy, chain.Logs(start, next), processed, rejected, seen)
  }

  lemma NothingConsumed(config: ScannerConfig, codecs: map<u32, Codec>, policy: Policy, chain: Chain, start: nat)
    ensures ConsumedUpTo(config, codecs, policy, chain, start, start, 0, 0, [])
  {
  }

  lemma LogsOfNothing(chain: Chain, at: nat)
    ensures chain.Logs(at, at) == []
  {
  }

  lemma ScanEnds(config: ScannerConfig, codecs: map<u32, Codec>, policy: Policy, score: Score, chain: Chain,
                 start: nat, next: nat, until: nat, seen: seq<Candidate>, out: LogScanOutcome)
    requires ConsumedUpTo(config, codecs, policy, chain, start, next, out.logsProcessed, out.recordsRejected, seen)
    requires next == until || (next <= until && out.logsProcessed >= config.maxLogsPerScan)
    requires IsRankedSample(Max(config.maxCandidates, 1), score, seen, out.candidates)
    ensures ScannedExactly(config, codecs, policy, score, chain.Logs(start, until), out)
  {
    hide IsRankedSample, Accepted, Chain.Logs;
    chain.LogsSplit(start, next, until);
    LogsOfNothing(chain, until);
    ConsumedIsPrefix(config.maxLogsPerScan, codecs, policy, chain.Logs(start, next), chain.Logs(next, until),
                     out.logsProcessed, out.recordsRejected, seen);
  }

  function SaturatingAdd(a: u64, b: u64): (r: u64)
    ensures r as nat == Min(a as int + b as int, U64_MAX as int)
  {
    if b <= U64_MAX - a then a + b else U64_MAX
  }

  /** One answered query: as many of its logs as the cap still allows. */
  method TakeChunk(config: ScannerConfig, codecs: map<u32, Codec>, policy: Policy, store: CandidateStore,
                   announcements: seq<Announcement>, processed: nat, rejected: nat,
                   ghost chain: Chain, ghost start: nat, ghost from: nat, ghost to: nat)
    returns (processed': nat, rejected': nat)
    requires store.Valid() && processed < config.maxLogsPerScan
    requires from <= to && announcements == chain.Logs(from, to + 1)
    requires ConsumedUpTo(config, codecs, policy, chain, start, from, processed, rejected, store.seen)
    modifies store
    ensures store.Valid()
    ensures ConsumedUpTo(config, codecs, policy, chain, start, to + 1, processed', rejected', store.seen)
  {
    hide CandidateStore.Valid, Consumed, Accepted, Chain.Logs;
    ghost var seen := store.seen;
    var taken := announcements[..Min(config.maxLogsPerScan - processed, |announcements|)];
    var refused := Absorb(store, codecs, policy, taken);
    ConsumeMore(config.maxLogsPerScan, codecs, policy, chain.Logs(start, from), announcements, processed, rejected, seen);
    chain.LogsSplit(start, from, to + 1);
    processed' := processed + |taken|;
    rejected' := rejected + refused;
  }

  /** Feeds one batch of announcements to the store. */
  method Absorb(store: CandidateStore, codecs: map<u32, Codec>, policy: Policy, batch: seq<Announcement>) returns (rejected: nat)
    requires store.Valid()
    modifies store
    ensures store.Valid() && store.seen == old(store.seen) + Accepted(codecs, policy, batch)
    ensures |batch| == rejected + |Accepted(codecs, policy, batch)|
  {
    hide IsSample, Validate;
    rejected := 0;
    var i := 0;
    while i < |batch|
      invariant 0 <= i <= |batch| && store.Valid()
      invariant store.seen == old(store.seen) + Accepted(codecs, policy, batch[..i])
      invariant i == rejected + |Accepted(codecs, policy, batch[..i])|
    {
      AcceptedStep(codecs, policy, batch, i);
      match Validate(codecs, batch[i], policy) {
        case Success(candidate) =>
          var _ := store.Insert(candidate);
        case Failure(_) =>
          rejected := rejected + 1;
      }
      i := i + 1;
    }
    assert batch[..i] == batch;
  }

  lemma AcceptedStep(codecs: map<u32, Codec>, policy: Policy, batch: seq<Announcement>, i: nat)
    requires i < |batch|
    ensures Accepted(codecs, policy, batch[..i + 1]) ==
            Accepted(codecs, policy, batch[..i])
            + (match Validate(codecs, batch[i], policy) case Success(c) => [c] case Failure(_) => [])
  {
    assert batch[..i + 1][..i] == batch[..i];
  }

  /** What has been taken so far is the first `cap` logs of the blocks covered so far. */
  ghost predicate Consumed(maxLogs: nat, codecs: map<u32, Codec>, policy: Policy, covered: seq<Announcement>,
                           processed: nat, rejected: nat, seen: seq<Candidate>) {
    && processed == Min(maxLogs, |covered|)
    && seen == Accepted(codecs, policy, covered[..processed])
    && processed == rejected + |seen|
  }

  lemma ConsumeMore(maxLogs: nat, codecs: map<u32, Codec>, policy: Policy, covered: seq<Announcement>,
                    more: seq<Announcement>, processed: nat, rejected: nat, seen: seq<Candidate>)
    requires Consumed(maxLogs, codecs, policy, covered, processed, rejected, seen)
    requires processed < maxLogs
    ensures var taken := more[..Min(maxLogs - processed, |more|)];
            var accepted := Accepted(codecs, policy, taken);
            Consumed(maxLogs, codecs, policy, covered + more, processed + |taken|, rejected + |taken| - |accepted|, seen + accepted)
  {
    var taken := more[..Min(maxLogs - processed, |more|)];
    assert covered[..processed] == covered;
    assert (covered + more)[..processed + |taken|] == covered + taken;
    AcceptedConcat(codecs, policy, covered, taken);
  }

  lemma ConsumedIsPrefix(maxLogs: nat, codecs: map<u32, Codec>, policy: Policy, covered: seq<Announcement>,
                         rest: seq<Announcement>, processed: nat, rejected: nat, seen: seq<Candidate>)
    requires Consumed(maxLogs, codecs, policy, covered, processed, rejected, seen)
    requires rest == [] || processed >= maxLogs
    ensures Consumed(maxLogs, codecs, policy, covered + rest, processed, rejected, seen)
  {
    assert (covered + rest)[..processed] == covered[..processed];
  }

  /** Whatever chunk sizes were configured and however the provider refused ranges, two scans
      of one window that succeed report the same counts and the same candidates. */
  lemma ScheduleIndependence(configA: ScannerConfig, configB: ScannerConfig, codecs: map<u32, Codec>, policy: Policy,
                             score: Score, window: seq<Announcement>, a: LogScanOutcome, b: LogScanOutcome)
    requires configA.maxLogsPerScan == configB.maxLogsPerScan && configA.maxCandidates == configB.maxCandidates
    requires ScannedExactly(configA, codecs, policy, score, window, a)
    requires ScannedExactly(configB, codecs, policy, score, window, b)
    requires DistinctScores(score, Identities(Accepted(codecs, policy, window[..Min(configA.maxLogsPerScan, |window|)])))
    ensures a.logsProcessed == b.logsProcessed && a.recordsRejected == b.recordsRejected && a.candidates == b.candidates
  {
    hide IsRankedSample, DistinctScores, Identities, Accepted;
    var seen := Accepted(codecs, policy, window[..Min(configA.maxLogsPerScan, |window|)]);
    RankedSampleIsUnique(Max(configA.maxCandidates, 1), score, seen, a.candidates, b.candidates);
  }

  // ----- The whole scan -----

  /** The finalized block, else the safe one, else the latest minus the configured confirmations. */
  function ConfirmedHead(config: ScannerConfig, provider: Provider): Result<BlockInfo, ScanError> {
    if config.useFinalityTags && !Skippable(provider.Tagged(provider.finalized)) then HeadFrom(provider.Tagged(provider.finalized))
    else if config.useFinalityTags && !Skippable(provider.Tagged(provider.safe)) then HeadFrom(provider.Tagged(provider.safe))
    else
      match provider.Tagged(provider.latest)
      case Failure(error) => Failure(ProviderFailed(error))
      case Success(None) => Failure(MissingBlock("latest"))
      case Success(Some(latest)) =>
        var confirmed := if latest.number >= config.fallbackConfirmations then latest.number - config.fallbackConfirmations else 0;
        match provider.Block(confirmed)
        case Failure(error) => Failure(ProviderFailed(error))
        case Success(None) => Failure(MissingBlock("confirmed"))
        case Success(Some(block)) => Success(block)
  }

  predicate Skippable(answer: Result<Option<BlockInfo>, ProviderError>) {
    match answer
    case Success(block) => block.None?
    case Failure(error) => error.Unsupported?
  }

  function HeadFrom(answer: Result<Option<BlockInfo>, ProviderError>): Result<BlockInfo, ScanError>
    requires !Skippable(answer)
  {
    match answer
    case Success(block) => Success(block.value)
    case Failure(error) => Failure(ProviderFailed(error))
  }

  lemma ConfirmedHeadIsOnChain(config: ScannerConfig, provider: Provider)
    requires ConfirmedHead(config, provider).Success?
    ensures var head := ConfirmedHead(config, provider).value;
            provider.chain.BlockAt(head.number) == Some(head)
  {
  }

  /** A tag the provider answers with a block of its chain. */
  predicate Answers(provider: Provider, tag: TagAnswer) {
    tag.Known? && tag.number <= provider.chain.tip
  }

  /** The head is the finalized block if there is one, else the safe one, else the latest less the
      configured confirmations, never below the first block; without the tags, the last of these. A tag
      that fails for another reason than not being supported fails the head. */
  lemma HeadFollowsTags(config: ScannerConfig, provider: Provider)
    ensures ConfirmedHead(config, provider).Success? ==>
      var number := ConfirmedHead(config, provider).value.number;
      if config.useFinalityTags && Answers(provider, provider.finalized) then number == provider.finalized.number
      else if config.useFinalityTags && Answers(provider, provider.safe) then number == provider.safe.number
      else
        && Answers(provider, provider.latest)
        && (provider.latest.number >= config.fallbackConfirmations ==>
              number as int + config.fallbackConfirmations as int == provider.latest.number as int)
        && (provider.latest.number < config.fallbackConfirmations ==> number == 0)
    ensures forall error: ProviderError ::
      (&& config.useFinalityTags && !error.Unsupported?
       && (provider.finalized == TagError(error) || (provider.finalized.Absent? && provider.safe == TagError(error)))) ==>
         ConfirmedHead(config, provider) == Failure(ProviderFailed(error))
  {
  }

  function DetectReorg(provider: Provider, previous: Option<Checkpoint>): Result<bool, ScanError> {
    match previous
    case None => Success(false)
    case Some(checkpoint) =>
      match provider.Block(checkpoint.number)
      case Failure(error) => Failure(ProviderFailed(error))
      case Success(current) => Success(current.None? || current.value.hash != checkpoint.hash)
  }

  predicate ConstantsOk(constants: RegistryConstants, descriptor: Descriptor) {
    && constants.version == Beacon.VERSION
    && constants.maxTtl == Beacon.MAX_TTL
    && constants.maxTtl == descriptor.maxTtlSeconds
    && constants.maxRecordBytes == Beacon.MAX_RECORD_BYTES
  }

  /** The per-scan sampling seed binds the local node, the head block and the namespace. */
  function SamplingSeed(hash: seq<byte> -> seq<byte>, localNodeId: seq<byte>, headHash: seq<byte>, namespace: seq<byte>): seq<byte> {
    hash(localNodeId + headHash + namespace)
  }

  /** Absent hash collisions, two scans share a seed only if they share node, head block and namespace. */
  lemma SeedsDiffer(hash: seq<byte> -> seq<byte>, nodeA: seq<byte>, headA: seq<byte>, namespaceA: seq<byte>,
                    nodeB: seq<byte>, headB: seq<byte>, namespaceB: seq<byte>)
    requires CollisionFree(hash) && |headA| == |headB| == |namespaceA| == |namespaceB| == 32
    requires SamplingSeed(hash, nodeA, headA, namespaceA) == SamplingSeed(hash, nodeB, headB, namespaceB)
    ensures nodeA == nodeB && headA == headB && namespaceA == namespaceB
  {
    var a, b := nodeA + headA + namespaceA, nodeB + headB + namespaceB;
    assert a == b && |nodeA| == |nodeB|;
    assert a[..|nodeA|] == nodeA && b[..|nodeB|] == nodeB;
    assert a[|nodeA|..|nodeA| + 32] == headA && b[|nodeB|..|nodeB| + 32] == headB;
    assert a[|nodeA| + 32..] == namespaceA && b[|nodeB| + 32..] == namespaceB;
  }

  function ScanScore(hash: seq<byte> -> seq<byte>, localNodeId: seq<byte>, head: BlockInfo, namespace: seq<byte>): Score {
    KeyedScore(hash, SamplingSeed(hash, localNodeId, head.hash, namespace))
  }

  lemma ScanScoresDiffer(hash: seq<byte> -> seq<byte>, localNodeId: seq<byte>, head: BlockInfo, namespace: seq<byte>, ids: set<Key>)
    requires CollisionFree(hash)
    ensures DistinctScores(ScanScore(hash, localNodeId, head, namespace), ids)
  {
    KeyedScoresDiffer(hash, SamplingSeed(hash, localNodeId, head.hash, namespace), ids);
  }

  function Cutoff(head: BlockInfo, descriptor: Descriptor): u64 {
    if head.timestamp as int >= descriptor.maxTtlSeconds as int then head.timestamp - descriptor.maxTtlSeconds as u64 else 0
  }

  /** The candidates are the best sample of every announcement since deployment. */
  ghost predicate CompleteScan(config: ScannerConfig, codecs: map<u32, Codec>, policy: Policy, score: Score,
                               chain: Chain, deployment: nat, head: nat, candidates: seq<Candidate>) {
    IsRankedSample(Max(config.maxCandidates, 1), score, Accepted(codecs, policy, chain.Logs(deployment, head + 1)), candidates)
  }

  /** Nothing before the binary-searched start block can still be valid at the head's clock. */
  lemma LogsBeforeStartAreExpired(codecs: map<u32, Codec>, policy: Policy, chain: Chain, head: BlockInfo,
                                  descriptor: Descriptor, start: nat)
    requires chain.FromBeacon()
    requires descriptor.maxTtlSeconds == Beacon.MAX_TTL && policy.chainTime == head.timestamp
    requires IsStartBlock(chain, descriptor.deploymentBlock as nat, head.number as nat, Cutoff(head, descriptor), start)
    ensures Accepted(codecs, policy, chain.Logs(descriptor.deploymentBlock as nat, start)) == []
  {
    var past := chain.Logs(descriptor.deploymentBlock as nat, start);
    forall i | 0 <= i < |past|
      ensures past[i].validUntil <= policy.chainTime
    {
      var b := chain.LogsComeFromBlocks(descriptor.deploymentBlock as nat, start, past[i]);
      EmittedLifetime(past[i], chain.timestamp(b));
    }
    AcceptedNone(codecs, policy, past);
  }

  /** The fast window scan agrees with scanning everything since deployment. */
  lemma WindowScanIsComplete(config: ScannerConfig, codecs: map<u32, Codec>, policy: Policy, score: Score, chain: Chain,
                             head: BlockInfo, descriptor: Descriptor, start: nat, out: LogScanOutcome)
    requires chain.FromBeacon()
    requires descriptor.maxTtlSeconds == Beacon.MAX_TTL && policy.chainTime == head.timestamp
    requires IsStartBlock(chain, descriptor.deploymentBlock as nat, head.number as nat, Cutoff(head, descriptor), start)
    requires ScannedExactly(config, codecs, policy, score, chain.Logs(start, head.number as nat + 1), out)
    requires |chain.Logs(start, head.number as nat + 1)| <= config.maxLogsPerScan
    ensures CompleteScan(config, codecs, policy, score, chain, descriptor.deploymentBlock as nat, head.number as nat, out.candidates)
  {
    hide IsRankedSample, Accepted, Chain.Logs;
    var from, until := descriptor.deploymentBlock as nat, head.number as nat + 1;
    var window := chain.Logs(start, until);
    assert window[..|window|] == window;
    chain.LogsSplit(from, start, until);
    AcceptedConcat(codecs, policy, chain.Logs(from, start), window);
    LogsBeforeStartAreExpired(codecs, policy, chain, head, descriptor, start);
    assert Accepted(codecs, policy, chain.Logs(from, until)) == Accepted(codecs, policy, window);
  }

  /** Version 1, the protocol's lifetime, and at least one record type, none of them twice. */
  ghost predicate Sound(descriptor: Descriptor) {
    && descriptor.version == 1 && descriptor.maxTtlSeconds == 7_776_000 && descriptor.acceptedRecordTypes != []
    && forall i, j :: 0 <= i < j < |descriptor.acceptedRecordTypes| ==> descriptor.acceptedRecordTypes[i] != descriptor.acceptedRecordTypes[j]
  }

  /** Why a scan fails: the descriptor, the deployment, the head or the previous checkpoint is
      at fault, or a search read failed, or a log query that no smaller chunk could rescue. */
  ghost predicate ScanFault(config: ScannerConfig, provider: Provider, descriptor: Descriptor, previous: Option<Checkpoint>, error: ScanError) {
    match error
    case InvalidDescriptor => !Sound(descriptor)
    case WrongChain(expected, actual) => expected == descriptor.chainId != actual && provider.chainId == Success(actual)
    case BadConstants(constants) => provider.constants == Success(constants) && constants != RegistryConstants(1, 7_776_000, 4096)
    case DeploymentAfterHead(deployment, head) =>
      && deployment == descriptor.deploymentBlock > head
      && ConfirmedHead(config, provider).Success? && ConfirmedHead(config, provider).value.number == head
    case MissingBlock(_) =>
      ConfirmedHead(config, provider) == Failure(error) || SearchFailed(config, provider, descriptor, error)
    case ProviderFailed(cause) =>
      || provider.chainId == Failure(cause)
      || provider.constants == Failure(cause)
      || ConfirmedHead(config, provider) == Failure(error)
      || DetectReorg(provider, previous) == Failure(error)
      || SearchFailed(config, provider, descriptor, error)
      || QueryFailed(config, provider, descriptor, error)
  }

  /** A block between deployment and head could not be read. */
  ghost predicate SearchFailed(config: ScannerConfig, provider: Provider, descriptor: Descriptor, error: ScanError) {
    && ConfirmedHead(config, provider).Success?
    && UnreadBetween(provider, descriptor.deploymentBlock, ConfirmedHead(config, provider).value.number, error)
  }

  ghost predicate UnreadBetween(provider: Provider, deployment: u64, head: u64, error: ScanError) {
    exists n: u64 :: deployment <= n < head && BlockFault(provider, n, error)
  }

  /** The queries that the provider's own verdicts led to, from the start block to the head, ended in a
      refusal with no smaller chunk to try. */
  ghost predicate QueryFailed(config: ScannerConfig, provider: Provider, descriptor: Descriptor, error: ScanError) {
    && ConfirmedHead(config, provider).Success?
    && var head := ConfirmedHead(config, provider).value;
       exists start: u64, asked ::
         && Starts(provider, descriptor, head, start)
         && LogScanStopped(config, provider, start, head.number, asked, error)
  }

  ghost predicate LogScanStopped(config: ScannerConfig, provider: Provider, start: u64, head: u64, asked: seq<Query>, error: ScanError) {
    StoppedBy(Window(provider, start, head, Max(config.initialChunkSize as int, 1), Max(config.minimumChunkSize as int, 1)), asked, error)
  }

  ghost predicate StoppedBy(w: Window, asked: seq<Query>, error: ScanError) {
    error.ProviderFailed? && Stopped(w, asked, error.error)
  }

  ghost predicate Starts(provider: Provider, descriptor: Descriptor, head: BlockInfo, start: u64) {
    && descriptor.deploymentBlock <= start <= head.number
    && (provider.chain.NonDecreasing() ==>
          IsStartBlock(provider.chain, descriptor.deploymentBlock as nat, head.number as nat, Cutoff(head, descriptor), start as nat))
  }

  lemma SearchFaultIsFault(config: ScannerConfig, provider: Provider, descriptor: Descriptor, previous: Option<Checkpoint>,
                           head: BlockInfo, n: u64, error: ScanError)
    requires ConfirmedHead(config, provider) == Success(head)
    requires descriptor.deploymentBlock <= n < head.number && BlockFault(provider, n, error)
    ensures ScanFault(config, provider, descriptor, previous, error)
  {
    hide ConfirmedHead, DetectReorg, QueryFailed;
  }

  lemma QueryFaultIsFault(config: ScannerConfig, provider: Provider, descriptor: Descriptor, previous: Option<Checkpoint>,
                          head: BlockInfo, start: u64, asked: seq<Query>, error: ScanError)
    requires ConfirmedHead(config, provider) == Success(head) && Starts(provider, descriptor, head, start)
    requires LogScanStopped(config, provider, start, head.number, asked, error)
    ensures ScanFault(config, provider, descriptor, previous, error)
  {
    hide ConfirmedHead, DetectReorg, SearchFailed, Starts, Stopped;
  }

  lemma InspectionFault(config: ScannerConfig, provider: Provider, descriptor: Descriptor, previous: Option<Checkpoint>, error: ScanError)
    requires
      || (error == InvalidDescriptor && !descriptor.WellFormed())
      || (error.ProviderFailed? && provider.chainId == Failure(error.error))
      || (error.WrongChain? && error.expected == descriptor.chainId != error.actual && provider.chainId == Success(error.actual))
      || (error.ProviderFailed? && provider.constants == Failure(error.error))
      || (error.BadConstants? && provider.constants == Success(error.constants) && error.constants != RegistryConstants(1, 7_776_000, 4096))
      || ConfirmedHead(config, provider) == Failure(error)
      || DetectReorg(provider, previous) == Failure(error)
    ensures ScanFault(config, provider, descriptor, previous, error)
  {
  }

  lemma DeploymentFault(config: ScannerConfig, provider: Provider, descriptor: Descriptor, previous: Option<Checkpoint>)
    requires ConfirmedHead(config, provider).Success? && descriptor.deploymentBlock > ConfirmedHead(config, provider).value.number
    ensures ScanFault(config, provider, descriptor, previous,
                      DeploymentAfterHead(descriptor.deploymentBlock, ConfirmedHead(config, provider).value.number))
  {
  }

  /** A provider that answers whatever it is asked, except that it may not support the finality tags. */
  ghost predicate AnswersAll(provider: Provider) {
    && Answers(provider, provider.latest)
    && (provider.finalized.TagError? ==> provider.finalized.error.Unsupported?)
    && (provider.safe.TagError? ==> provider.safe.error.Unsupported?)
    && (forall n :: provider.blockVerdict(n).Answer?)
    && (forall query, from, to :: provider.logVerdict(query, from, to).Answer?)
  }

  /** The descriptor is sound and names this chain and the deployed registry. */
  ghost predicate Deployed(provider: Provider, descriptor: Descriptor) {
    && Sound(descriptor)
    && provider.chainId == Success(descriptor.chainId) && provider.constants == Success(RegistryConstants(1, 7_776_000, 4096))
  }

  /** Where the provider answers everything, the only fault of a deployed registry is a head that has
      not reached its deployment. */
  lemma AnsweredScanSucceeds(config: ScannerConfig, provider: Provider, descriptor: Descriptor, previous: Option<Checkpoint>, error: ScanError)
    requires AnswersAll(provider) && Deployed(provider, descriptor)
    requires ScanFault(config, provider, descriptor, previous, error)
    ensures error.DeploymentAfterHead? && descriptor.deploymentBlock > error.head
  {
    hide SearchFailed, QueryFailed;
    assert ConfirmedHead(config, provider).Success?;
    NothingUnread(config, provider, descriptor, error);
    NothingRefused(config, provider, descriptor, error);
  }

  lemma NothingUnread(config: ScannerConfig, provider: Provider, descriptor: Descriptor, error: ScanError)
    requires AnswersAll(provider)
    ensures !SearchFailed(config, provider, descriptor, error)
  {
    hide ConfirmedHead;
    if SearchFailed(config, provider, descriptor, error) {
      ConfirmedHeadIsOnChain(config, provider);
    }
  }

  lemma NothingRefused(config: ScannerConfig, provider: Provider, descriptor: Descriptor, error: ScanError)
    requires AnswersAll(provider)
    ensures !QueryFailed(config, provider, descriptor, error)
  {
    hide ConfirmedHead, Starts, History, Next;
  }

  // ----- What a scan reports, log by log -----

  /** A log of the descriptor's namespace and types, live at `now`, that its codec vouches for. */
  ghost predicate GoodLog(config: ScannerConfig, codecs: map<u32, Codec>, descriptor: Descriptor, now: u64, a: Announcement, c: Candidate) {
    && a.namespace == descriptor.namespace && a.recordType in descriptor.acceptedRecordTypes && a.recordType in codecs
    && Vouches(codecs[a.recordType], config.dialContext, now, 4096, config.maxEndpointsPerRecord, a, c)
  }

  /** A log of some block from `from` up to (not including) `until`. */
  ghost predicate LogIn(chain: Chain, from: nat, until: nat, a: Announcement) {
    exists b :: from <= b < until && a in chain.logsOf(b)
  }

  ghost predicate FromGoodLog(config: ScannerConfig, codecs: map<u32, Codec>, descriptor: Descriptor, now: u64, chain: Chain,
                              from: nat, until: nat, listed: Candidate) {
    exists a, c :: LogIn(chain, from, until, a) && GoodLog(config, codecs, descriptor, now, a, c) && Carries(listed, a, c)
  }

  ghost predicate OnlyGoodLogs(config: ScannerConfig, codecs: map<u32, Codec>, descriptor: Descriptor, now: u64, chain: Chain,
                               from: nat, until: nat, candidates: seq<Candidate>) {
    forall listed :: listed in candidates ==> FromGoodLog(config, codecs, descriptor, now, chain, from, until, listed)
  }

  /** `ids` covers the identities of all good logs and fits the cap. */
  ghost predicate IdentitiesFit(config: ScannerConfig, codecs: map<u32, Codec>, descriptor: Descriptor, now: u64, chain: Chain,
                                from: nat, until: nat, ids: set<Key>) {
    && |ids| <= Max(config.maxCandidates, 1)
    && forall a, c :: LogIn(chain, from, until, a) && GoodLog(config, codecs, descriptor, now, a, c) ==> Key(c.recordType, c.peerId) in ids
  }

  ghost predicate ListedAsFresh(candidates: seq<Candidate>, c: Candidate) {
    exists found :: found in candidates && found.recordType == c.recordType && found.peerId == c.peerId && found.sequence >= c.sequence
  }

  /** When the identities fit the cap, every good log's peer is listed with at least its sequence. */
  ghost predicate AllGoodLogs(config: ScannerConfig, codecs: map<u32, Codec>, descriptor: Descriptor, now: u64, chain: Chain,
                              from: nat, until: nat, candidates: seq<Candidate>) {
    (exists ids :: IdentitiesFit(config, codecs, descriptor, now, chain, from, until, ids)) ==>
      forall a, c :: LogIn(chain, from, until, a) && GoodLog(config, codecs, descriptor, now, a, c) ==> ListedAsFresh(candidates, c)
  }

  /** The policy of a scan admits exactly the good logs. */
  lemma PolicyAdmitsGoodLogs(config: ScannerConfig, codecs: map<u32, Codec>, descriptor: Descriptor, constants: RegistryConstants,
                             now: u64, a: Announcement, c: Candidate)
    requires constants.maxRecordBytes == 4096
    ensures Admitted(codecs, PolicyFor(config, descriptor, constants, now), a, c) <==> GoodLog(config, codecs, descriptor, now, a, c)
  {
  }

  lemma AcceptedAreGood(config: ScannerConfig, codecs: map<u32, Codec>, descriptor: Descriptor, constants: RegistryConstants, now: u64,
                        chain: Chain, from: nat, until: nat, logs: seq<Announcement>, listed: Candidate)
    returns (a: Announcement, c: Candidate)
    requires constants.maxRecordBytes == 4096 && forall x :: x in logs ==> x in chain.Logs(from, until)
    requires listed in Accepted(codecs, PolicyFor(config, descriptor, constants, now), logs)
    ensures LogIn(chain, from, until, a) && GoodLog(config, codecs, descriptor, now, a, c) && Carries(listed, a, c)
    ensures a in logs && listed.IdentityKey() == Key(c.recordType, c.peerId)
  {
    hide PolicyFor, Admitted, GoodLog, Vouches, Accepted, Validate, Chain.Logs;
    var policy := PolicyFor(config, descriptor, constants, now);
    a := AcceptedComesFrom(codecs, policy, logs, listed);
    var b := chain.LogsComeFromBlocks(from, until, a);
    ValidationIsExact(codecs, policy, a);
    c :| Admitted(codecs, policy, a, c);
    PolicyAdmitsGoodLogs(config, codecs, descriptor, constants, now, a, c);
  }

  lemma ListedAreGood(config: ScannerConfig, codecs: map<u32, Codec>, descriptor: Descriptor, constants: RegistryConstants, now: u64,
                      score: Score, chain: Chain, from: nat, until: nat, out: LogScanOutcome)
    requires constants.maxRecordBytes == 4096
    requires ScannedExactly(config, codecs, PolicyFor(config, descriptor, constants, now), score, chain.Logs(from, until), out)
    ensures OnlyGoodLogs(config, codecs, descriptor, now, chain, from, until, out.candidates)
  {
    hide PolicyFor, IsRankedSample, GoodLog, LogIn, Carries, Accepted, Chain.Logs;
    var window := chain.Logs(from, until);
    var taken := window[..Min(config.maxLogsPerScan, |window|)];
    forall listed | listed in out.candidates
      ensures FromGoodLog(config, codecs, descriptor, now, chain, from, until, listed)
    {
      ListedWasSeen(Max(config.maxCandidates, 1), score, Accepted(codecs, PolicyFor(config, descriptor, constants, now), taken),
                    out.candidates, listed);
      var a, c := AcceptedAreGood(config, codecs, descriptor, constants, now, chain, from, until, taken, listed);
    }
  }

  lemma AcceptedFit(config: ScannerConfig, codecs: map<u32, Codec>, descriptor: Descriptor, constants: RegistryConstants, now: u64,
                    chain: Chain, from: nat, until: nat, ids: set<Key>)
    requires constants.maxRecordBytes == 4096 && IdentitiesFit(config, codecs, descriptor, now, chain, from, until, ids)
    ensures |Identities(Accepted(codecs, PolicyFor(config, descriptor, constants, now), chain.Logs(from, until)))| <= Max(config.maxCandidates, 1)
  {
    hide PolicyFor, GoodLog, LogIn, Carries, Accepted, Chain.Logs;
    var seen := Accepted(codecs, PolicyFor(config, descriptor, constants, now), chain.Logs(from, until));
    forall x | x in seen
      ensures x.IdentityKey() in ids
    {
      var a, c := AcceptedAreGood(config, codecs, descriptor, constants, now, chain, from, until, chain.Logs(from, until), x);
    }
    SubsetIsSmaller(Identities(seen), ids);
  }

  lemma GoodLogIsFound(config: ScannerConfig, codecs: map<u32, Codec>, descriptor: Descriptor, constants: RegistryConstants, now: u64,
                       score: Score, chain: Chain, deployment: nat, head: nat, candidates: seq<Candidate>,
                       ids: set<Key>, a: Announcement, c: Candidate)
    requires constants.maxRecordBytes == 4096
    requires CompleteScan(config, codecs, PolicyFor(config, descriptor, constants, now), score, chain, deployment, head, candidates)
    requires IdentitiesFit(config, codecs, descriptor, now, chain, deployment, head + 1, ids)
    requires LogIn(chain, deployment, head + 1, a) && GoodLog(config, codecs, descriptor, now, a, c)
    ensures ListedAsFresh(candidates, c)
  {
    hide PolicyFor, CompleteScan, IdentitiesFit, GoodLog, Admitted, Accepted, Validate, Chain.Logs;
    var policy := PolicyFor(config, descriptor, constants, now);
    PolicyAdmitsGoodLogs(config, codecs, descriptor, constants, now, a, c);
    ValidationIsExact(codecs, policy, a);
    AcceptedFit(config, codecs, descriptor, constants, now, chain, deployment, head + 1, ids);
    var b :| deployment <= b < head + 1 && a in chain.logsOf(b);
    var found := AnnouncedSeedIsFound(config, codecs, policy, score, chain, deployment, head, candidates, b, a);
    assert Carries(Validate(codecs, a, policy).value, a, c);
  }

  lemma GoodLogsAreFound(config: ScannerConfig, codecs: map<u32, Codec>, descriptor: Descriptor, constants: RegistryConstants, now: u64,
                         score: Score, chain: Chain, deployment: nat, head: nat, candidates: seq<Candidate>)
    requires constants.maxRecordBytes == 4096
    requires CompleteScan(config, codecs, PolicyFor(config, descriptor, constants, now), score, chain, deployment, head, candidates)
    ensures AllGoodLogs(config, codecs, descriptor, now, chain, deployment, head + 1, candidates)
  {
    hide PolicyFor, CompleteScan, IdentitiesFit, GoodLog, LogIn, ListedAsFresh;
    var until := head + 1;
    if ids :| IdentitiesFit(config, codecs, descriptor, now, chain, deployment, until, ids) {
      forall a, c | LogIn(chain, deployment, until, a) && GoodLog(config, codecs, descriptor, now, a, c)
        ensures ListedAsFresh(candidates, c)
      {
        GoodLogIsFound(config, codecs, descriptor, constants, now, score, chain, deployment, head, candidates, ids, a, c);
      }
    }
  }

  /** The window begins with the least block from which something could still be alive at the head. */
  ghost predicate WindowIsTight(chain: Chain, deployment: nat, start: nat, head: BlockInfo) {
    && deployment <= start <= head.number as nat
    && (forall b: nat :: deployment <= b < start ==> chain.timestamp(b) as int + 7_776_000 < head.timestamp as int)
    && (start < head.number as nat ==> chain.timestamp(start) as int + 7_776_000 >= head.timestamp as int)
  }

  lemma StartIsTight(chain: Chain, descriptor: Descriptor, start: nat, head: BlockInfo)
    requires descriptor.maxTtlSeconds == 7_776_000
    requires IsStartBlock(chain, descriptor.deploymentBlock as nat, head.number as nat, Cutoff(head, descriptor), start)
    ensures WindowIsTight(chain, descriptor.deploymentBlock as nat, start, head)
  {
  }

  lemma ReorgMeans(provider: Provider, previous: Option<Checkpoint>)
    requires DetectReorg(provider, previous).Success?
    ensures DetectReorg(provider, previous).value <==>
              && previous.Some?
              && (previous.value.number > provider.chain.tip || provider.chain.hash(previous.value.number as nat) != previous.value.hash)
  {
  }

  lemma PolicyClock(config: ScannerConfig, descriptor: Descriptor, constants: RegistryConstants, now: u64)
    ensures PolicyFor(config, descriptor, constants, now).chainTime == now
  {
  }

  method Scan(config: ScannerConfig, codecs: map<u32, Codec>, provider: Provider, hash: seq<byte> -> seq<byte>,
              descriptor: Descriptor, localNodeId: seq<byte>, previous: Option<Checkpoint>)
    returns (r: Result<ScanReport, ScanError>)
    ensures !Sound(descriptor) ==> r == Failure(InvalidDescriptor)
    ensures Sound(descriptor) && provider.chainId.Success? && provider.chainId.value != descriptor.chainId ==>
              r == Failure(WrongChain(descriptor.chainId, provider.chainId.value))
    ensures r.Success? ==>
              && Sound(descriptor) && provider.chainId == Success(descriptor.chainId)
              && provider.constants.Success? && ConstantsOk(provider.constants.value, descriptor)
              && ConfirmedHead(config, provider) == Success(r.value.head)
              && descriptor.deploymentBlock <= r.value.head.number
              && r.value.checkpoint == Checkpoint(r.value.head.number, r.value.head.hash)
              && DetectReorg(provider, previous) == Success(r.value.reorgDetected)
    ensures r.Success? && provider.chain.NonDecreasing() ==>
              IsStartBlock(provider.chain, descriptor.deploymentBlock as nat, r.value.head.number as nat,
                           Cutoff(r.value.head, descriptor), r.value.startBlock as nat)
    ensures r.Success? && provider.chain.NonDecreasing() && provider.chain.FromBeacon()
            && |provider.chain.Logs(r.value.startBlock as nat, r.value.head.number as nat + 1)| <= config.maxLogsPerScan ==>
              CompleteScan(config, codecs, PolicyFor(config, descriptor, provider.constants.value, r.value.head.timestamp),
                           ScanScore(hash, localNodeId, r.value.head, descriptor.namespace), provider.chain,
                           descriptor.deploymentBlock as nat, r.value.head.number as nat, r.value.candidates)
    ensures r.Success? ==>
              ScannedExactly(config, codecs, PolicyFor(config, descriptor, provider.constants.value, r.value.head.timestamp),
                             ScanScore(hash, localNodeId, r.value.head, descriptor.namespace),
                             provider.chain.Logs(r.value.startBlock as nat, r.value.head.number as nat + 1),
                             LogScanOutcome(r.value.logsProcessed, r.value.recordsRejected, r.value.chunkReductions, r.value.candidates))
    ensures r.Success? ==>
              && provider.constants == Success(RegistryConstants(1, 7_776_000, 4096))
              && (r.value.reorgDetected <==>
                    && previous.Some?
                    && (|| previous.value.number > provider.chain.tip
                        || provider.chain.hash(previous.value.number as nat) != previous.value.hash))
    ensures r.Success? && provider.chain.NonDecreasing() ==>
              WindowIsTight(provider.chain, descriptor.deploymentBlock as nat, r.value.startBlock as nat, r.value.head)
    ensures r.Success? ==>
              OnlyGoodLogs(config, codecs, descriptor, r.value.head.timestamp, provider.chain,
                           r.value.startBlock as nat, r.value.head.number as nat + 1, r.value.candidates)
    ensures r.Success? && provider.chain.NonDecreasing() && provider.chain.FromBeacon()
            && |provider.chain.Logs(r.value.startBlock as nat, r.value.head.number as nat + 1)| <= config.maxLogsPerScan ==>
              AllGoodLogs(config, codecs, descriptor, r.value.head.timestamp, provider.chain,
                          descriptor.deploymentBlock as nat, r.value.head.number as nat + 1, r.value.candidates)
    ensures r.Failure? ==> ScanFault(config, provider, descriptor, previous, r.error)
  {
    hide OnlyGoodLogs, AllGoodLogs, WindowIsTight, PolicyFor, ScanScore, Cutoff, DetectReorg, Chain.NonDecreasing, Chain.FromBeacon;
    hide ScanFault, ConfirmedHead, IsStartBlock, CompleteScan, ScannedExactly, CoveredBy, Stopped, Next, BlockFault,
         AllRead, Pow2, Chain.Logs;
    if !descriptor.WellFormed() {
      InspectionFault(config, provider, descriptor, previous, InvalidDescriptor);
      return Failure(InvalidDescriptor);
    }
    if provider.chainId.Failure? {
      InspectionFault(config, provider, descriptor, previous, ProviderFailed(provider.chainId.error));
      return Failure(ProviderFailed(provider.chainId.error));
    }
    if provider.chainId.value != descriptor.chainId {
      InspectionFault(config, provider, descriptor, previous, WrongChain(descriptor.chainId, provider.chainId.value));
      return Failure(WrongChain(descriptor.chainId, provider.chainId.value));
    }
    if provider.constants.Failure? {
      InspectionFault(config, provider, descriptor, previous, ProviderFailed(provider.constants.error));
      return Failure(ProviderFailed(provider.constants.error));
    }
    var constants := provider.constants.value;
    if !ConstantsOk(constants, descriptor) {
      InspectionFault(config, provider, descriptor, previous, BadConstants(constants));
      return Failure(BadConstants(constants));
    }
    var confirmed := ConfirmedHead(config, provider);
    if confirmed.Failure? {
      InspectionFault(config, provider, descriptor, previous, confirmed.error);
      return Failure(confirmed.error);
    }
    var head := confirmed.value;
    if descriptor.deploymentBlock > head.number {
      DeploymentFault(config, provider, descriptor, previous);
      return Failure(DeploymentAfterHead(descriptor.deploymentBlock, head.number));
    }
    var reorg := DetectReorg(provider, previous);
    if reorg.Failure? {
      InspectionFault(config, provider, descriptor, previous, reorg.error);
      return Failure(reorg.error);
    }
    var start, blocks := FindStartBlock(provider, descriptor.deploymentBlock, head.number, Cutoff(head, descriptor));
    if start.Failure? {
      assert blocks[|blocks| - 1] in blocks;
      SearchFaultIsFault(config, provider, descriptor, previous, head, blocks[|blocks| - 1], start.error);
      return Failure(start.error);
    }
    if provider.chain.NonDecreasing() {
      StartIsTight(provider.chain, descriptor, start.value as nat, head);
    }
    ReorgMeans(provider, previous);
    PolicyClock(config, descriptor, constants, head.timestamp);
    var policy := PolicyFor(config, descriptor, constants, head.timestamp);
    var score := ScanScore(hash, localNodeId, head, descriptor.namespace);
    var scanned, _, asked := ScanLogs(config, codecs, provider, policy, score, start.value, head.number);
    if scanned.Failure? {
      QueryFaultIsFault(config, provider, descriptor, previous, head, start.value, asked, scanned.error);
      return Failure(scanned.error);
    }
    var out := scanned.value;
    ListedAreGood(config, codecs, descriptor, constants, head.timestamp, score, provider.chain, start.value as nat, head.number as nat + 1, out);
    if provider.chain.NonDecreasing() && provider.chain.FromBeacon()
       && |provider.chain.Logs(start.value as nat, head.number as nat + 1)| <= config.maxLogsPerScan {
      WindowScanIsComplete(config, codecs, policy, score, provider.chain, head, descriptor, start.value as nat, out);
      GoodLogsAreFound(config, codecs, descriptor, constants, head.timestamp, score, provider.chain,
                       descriptor.deploymentBlock as nat, head.number as nat, out.candidates);
    }
    return Success(ScanReport(start.value, head, Checkpoint(head.number, head.hash), reorg.value, out.logsProcessed,
                              out.recordsRejected, out.chunkReductions, out.candidates));
  }

  /** A beacon announcement that is unexpired and codec-valid at the scanned head is found
      whenever the distinct identities fit the cap, with at least the announced sequence. */
  lemma AnnouncedSeedIsFound(config: ScannerConfig, codecs: map<u32, Codec>, policy: Policy, score: Score, chain: Chain,
                             deployment: nat, head: nat, candidates: seq<Candidate>, block: nat, a: Announcement)
    returns (found: Candidate)
    requires CompleteScan(config, codecs, policy, score, chain, deployment, head, candidates)
    requires deployment <= block <= head && a in chain.logsOf(block)
    requires Validate(codecs, a, policy).Success?
    requires |Identities(Accepted(codecs, policy, chain.Logs(deployment, head + 1)))| <= Max(config.maxCandidates, 1)
    ensures found in candidates && found.IdentityKey() == Validate(codecs, a, policy).value.IdentityKey()
    ensures found.sequence >= Validate(codecs, a, policy).value.sequence
    ensures found.expiresAt > policy.chainTime
  {
    hide IsRankedSample, Identities, Validate, Fresher;
    var all := chain.Logs(deployment, head + 1);
    var seen := Accepted(codecs, policy, all);
    chain.LogsContain(deployment, head + 1, block, a);
    AcceptedContains(codecs, policy, all, a);
    found := NothingFreshIsLost(Max(config.maxCandidates, 1), score, seen, candidates, Validate(codecs, a, policy).value);
    ListedWasSeen(Max(config.maxCandidates, 1), score, seen, candidates, found);
    var origin := AcceptedComesFrom(codecs, policy, all, found);
    ValidationGuards(codecs, codecs, origin, policy);
  }
}
