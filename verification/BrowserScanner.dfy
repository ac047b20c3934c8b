/** The browser's registry scan (packages/ts/src/scanner.ts), with both ways of choosing the window. */
module BrowserScanner {
  import opened Common
  import opened Candidates
  import opened Validation
  import opened RegistryChain
  import opened BrowserWindow
  import opened LogQueries
  import AbiData
  import Beacon
  import Hex
  import Scanner

  /** keccak256 of the event signature. */
  const PEER_ANNOUNCED_TOPIC: string := "0x7d1c1d3bcf95382eea4fdac25defde4e7ea513c29a4f5cb05e6c1adcc6b3b2bf"

  /** Options with their defaults filled in; bigints and numbers alike are unbounded integers. */
  datatype ScanOptions = ScanOptions(
    confirmations: int,
    maxBlockLookback: Option<int>,
    initialChunkSize: int,
    minimumChunkSize: int,
    maxLogs: int,
    maxCandidates: int,
    maxEndpointsPerRecord: int)
  {
    predicate Valid() {
      && confirmations >= 0 && maxBlockLookback.GetOr(1) >= 1
      && initialChunkSize >= 1 && minimumChunkSize >= 1
      && maxLogs >= 1 && maxCandidates >= 1 && maxEndpointsPerRecord >= 1
    }
  }

  datatype BrowserError = InvalidOptions | Failed(error: Scanner.ScanError)

  datatype ScanReport = ScanReport(
    startBlock: nat,
    headBlock: nat,
    headTimestamp: u64,
    logsProcessed: nat,
    recordsRejected: nat,
    chunkReductions: nat,
    candidates: seq<Candidate>)

  /** A log as the node returns it. */
  datatype EventLog = EventLog(removed: bool, address: string, topics: seq<string>, data: string, blockNumber: u64, logIndex: u64)

  /** How the node presents an announcement of the registry as a log. */
  type Rendering = Announcement -> EventLog

  /** What a log is judged by; the codec verifies a record and applies the endpoint cap. */
  datatype Judge = Judge(registry: string, namespace: seq<byte>, accepted: seq<u32>, headTimestamp: u64, maxEndpoints: nat, codec: Codec) {
    function Codecs(): map<u32, Codec> {
      map[RECORD_TYPE_LIBP2P := codec]
    }

    /** The same judgement on announcements. */
    function AsPolicy(): Policy {
      Policy(namespace, if RECORD_TYPE_LIBP2P in accepted then [RECORD_TYPE_LIBP2P] else [],
             headTimestamp, Beacon.MAX_RECORD_BYTES as nat, maxEndpoints, Browser)
    }

    /** What a run of announcements yields when they are judged directly. */
    function Expected(logs: seq<Announcement>): seq<Candidate> {
      Accepted(Codecs(), AsPolicy(), logs)
    }
  }

  function JudgeFor(registry: string, descriptor: Scanner.Descriptor, options: ScanOptions, codec: Codec, headTimestamp: u64): Judge
    requires options.Valid()
  {
    Judge(registry, descriptor.namespace, descriptor.acceptedRecordTypes, headTimestamp, options.maxEndpointsPerRecord, codec)
  }

  function HexText(b: seq<byte>): string {
    "0x" + Hex.OfBytes(b)
  }

  /** The number a hex topic denotes. */
  function Quantity(topic: string): Option<nat> {
    if |topic| > 2 && topic[..2] == "0x" && Hex.AllHex(topic[2..]) then Some(Hex.Parse(topic[2..])) else None
  }

  function DecodeBrowserPeerRecord(j: Judge, bytes: seq<byte>, validUntil: u64, blockNumber: u64, logIndex: u64): Option<Candidate> {
    if |bytes| == 0 || |bytes| > Beacon.MAX_RECORD_BYTES as nat then None
    else
      match j.codec(bytes, Browser)
      case Failure(_) => None
      case Success(c) =>
        if c.recordType != RECORD_TYPE_LIBP2P || |c.endpoints| > j.maxEndpoints then None
        else
          Some(c.(expiresAt := validUntil, source := ResurrectRegistry,
                  announcementBlock := Some(blockNumber), announcementLogIndex := Some(logIndex)))
  }

  /** Source, event, record type, event data, expiry and record, checked in that order. */
  function JudgeLog(j: Judge, log: EventLog): Option<Candidate> {
    if log.removed || Hex.Lower(log.address) != Hex.Lower(j.registry) then None
    else if |log.topics| < 3 then None
    else if Hex.Lower(log.topics[0]) != PEER_ANNOUNCED_TOPIC || Hex.Lower(log.topics[1]) != HexText(j.namespace) then None
    else
      var recordType := Quantity(log.topics[2]);
      if recordType != Some(RECORD_TYPE_LIBP2P as nat) || RECORD_TYPE_LIBP2P !in j.accepted then None
      else
        JudgeData(j, log)
  }

  function JudgeData(j: Judge, log: EventLog): Option<Candidate> {
    match AbiData.Decode(log.data)
    case Failure(_) => None
    case Success((validUntil, record)) =>
      if validUntil <= j.headTimestamp as nat then None
      else DecodeBrowserPeerRecord(j, Hex.BytesOf(record[2..]), validUntil as u64, log.blockNumber, log.logIndex)
  }

  /** `log` presents announcement `a`: its topics name the event, the namespace and the record type, in
      any digit case, and its data is the canonical encoding of the rest. */
  ghost predicate Presents(registry: string, log: EventLog, a: Announcement) {
    && !log.removed && Hex.Lower(log.address) == Hex.Lower(registry)
    && |log.topics| >= 3 && Hex.Lower(log.topics[0]) == PEER_ANNOUNCED_TOPIC && Hex.Lower(log.topics[1]) == HexText(a.namespace)
    && Quantity(log.topics[2]) == Some(a.recordType as nat)
    && AbiData.Encodes(log.data, a.validUntil as nat, a.peerRecord)
    && log.blockNumber == a.blockNumber && log.logIndex == a.logIndex
  }

  /** Decoding loses nothing: a log is judged exactly as the announcement it presents. */
  lemma JudgedAsAnnounced(j: Judge, log: EventLog, a: Announcement)
    requires Presents(j.registry, log, a)
    ensures JudgeLog(j, log) == match Validate(j.Codecs(), a, j.AsPolicy()) case Success(c) => Some(c) case Failure(_) => None
  {
    hide AbiData.Decode, AbiData.Encode, Hex.OfBytes, Hex.BytesOf, Hex.Lower, Hex.AllHex, Hex.Pow16, Quantity;
    AbiData.DecodeAcceptsEncodings(log.data, a.validUntil as nat, a.peerRecord);
    var record := AbiData.Decode(log.data).value.1;
    Hex.BytesOfInvertsOfBytes(record[2..], a.peerRecord);
    NamespaceText(a.namespace, j.namespace);
  }

  /** An announcement of the descriptor's namespace and of the libp2p type, live at `now`, that the codec vouches for. */
  ghost predicate GoodAnnouncement(descriptor: Scanner.Descriptor, options: ScanOptions, codec: Codec, now: u64, a: Announcement, c: Candidate)
    requires options.Valid()
  {
    && a.namespace == descriptor.namespace && a.recordType == 2 && a.recordType in descriptor.acceptedRecordTypes
    && Vouches(codec, Browser, now, 4096, options.maxEndpointsPerRecord, a, c)
  }

  ghost predicate GoodLog(registry: string, descriptor: Scanner.Descriptor, options: ScanOptions, codec: Codec, now: u64, log: EventLog,
                          x: Candidate)
    requires options.Valid()
  {
    exists a, c :: Presents(registry, log, a) && GoodAnnouncement(descriptor, options, codec, now, a, c) && Carries(x, a, c)
  }

  lemma AdmittedIsGood(registry: string, descriptor: Scanner.Descriptor, options: ScanOptions, codec: Codec, now: u64, a: Announcement, c: Candidate)
    requires options.Valid()
    ensures var j := JudgeFor(registry, descriptor, options, codec, now);
      Admitted(j.Codecs(), j.AsPolicy(), a, c) <==> GoodAnnouncement(descriptor, options, codec, now, a, c)
  {
  }

  /** The announcement a log was judged by. */
  lemma JudgedPresents(j: Judge, log: EventLog) returns (a: Announcement)
    requires JudgeLog(j, log).Some?
    ensures Presents(j.registry, log, a)
  {
    hide AbiData.Decode, AbiData.Encode, Hex.OfBytes, Hex.BytesOf, Hex.Lower, Hex.AllHex, Hex.Pow16, Quantity;
    var record := AbiData.DecodeAcceptsOnlyEncodings(log.data);
    a := Announcement(j.namespace, RECORD_TYPE_LIBP2P, AbiData.Decode(log.data).value.0 as u64, record, log.blockNumber, log.logIndex);
    assert AbiData.Encodes(log.data, a.validUntil as nat, a.peerRecord);
  }

  /** A log yields a candidate exactly when it comes from the registry, is not removed, and presents a good
      announcement that the candidate carries. */
  lemma JudgingIsExact(registry: string, descriptor: Scanner.Descriptor, options: ScanOptions, codec: Codec, now: u64, log: EventLog, x: Candidate)
    requires options.Valid()
    ensures JudgeLog(JudgeFor(registry, descriptor, options, codec, now), log) == Some(x)
       <==> GoodLog(registry, descriptor, options, codec, now, log, x)
  {
    hide JudgeLog, JudgeFor, Presents, Vouches, GoodAnnouncement, Admitted, Validate;
    var j := JudgeFor(registry, descriptor, options, codec, now);
    JudgeRegistry(registry, descriptor, options, codec, now);
    if JudgeLog(j, log) == Some(x) {
      var a := JudgedPresents(j, log);
      JudgedAsAnnounced(j, log, a);
      ValidationIsExact(j.Codecs(), j.AsPolicy(), a);
      var c :| Admitted(j.Codecs(), j.AsPolicy(), a, c);
      AdmittedIsGood(registry, descriptor, options, codec, now, a, c);
    }
    if a, c :| Presents(registry, log, a) && GoodAnnouncement(descriptor, options, codec, now, a, c) && Carries(x, a, c) {
      AdmittedIsGood(registry, descriptor, options, codec, now, a, c);
      ValidationIsExact(j.Codecs(), j.AsPolicy(), a);
      JudgedAsAnnounced(j, log, a);
      CarriedOnce(x, Validate(j.Codecs(), a, j.AsPolicy()).value, a, c);
    }
  }

  lemma JudgeRegistry(registry: string, descriptor: Scanner.Descriptor, options: ScanOptions, codec: Codec, now: u64)
    requires options.Valid()
    ensures var j := JudgeFor(registry, descriptor, options, codec, now); j.registry == registry && j.headTimestamp == now
  {
  }

  lemma CarriedOnce(x: Candidate, y: Candidate, a: Announcement, c: Candidate)
    requires Carries(x, a, c) && Carries(y, a, c)
    ensures x == y
  {
  }

  lemma NamespaceText(a: seq<byte>, b: seq<byte>)
    ensures HexText(a) == HexText(b) <==> a == b
  {
    if HexText(a) == HexText(b) {
      assert HexText(a)[2..] == Hex.OfBytes(a) && HexText(b)[2..] == Hex.OfBytes(b);
      Hex.OfBytesIsInjective(a, b);
    }
  }

  /** The candidates that a run of logs yields. */
  function Judged(j: Judge, logs: seq<EventLog>): (r: seq<Candidate>)
    ensures |r| <= |logs|
  {
    if logs == [] then []
    else
      var n := |logs| - 1;
      match JudgeLog(j, logs[n])
      case Some(c) => Judged(j, logs[..n]) + [c]
      case None => Judged(j, logs[..n])
  }

  lemma {:induction false} JudgedConcat(j: Judge, a: seq<EventLog>, b: seq<EventLog>)
    ensures Judged(j, a + b) == Judged(j, a) + Judged(j, b)
  {
    hide JudgeLog;
    if b == [] {
      assert a + b == a;
    } else {
      var n := |b| - 1;
      JudgedConcat(j, a, b[..n]);
      assert (a + b)[..|a + b| - 1] == a + b[..n];
      assert (a + b)[|a + b| - 1] == b[n];
    }
  }

  lemma JudgedStep(j: Judge, logs: seq<EventLog>, i: nat)
    requires i < |logs|
    ensures Judged(j, logs[..i + 1]) == Judged(j, logs[..i]) + (match JudgeLog(j, logs[i]) case Some(c) => [c] case None => [])
  {
    hide JudgeLog;
    assert logs[..i + 1][..i] == logs[..i];
  }

  function Rendered(render: Rendering, logs: seq<Announcement>): (r: seq<EventLog>)
    ensures |r| == |logs|
  {
    seq(|logs|, i requires 0 <= i < |logs| => render(logs[i]))
  }

  ghost predicate AllPresented(registry: string, render: Rendering, logs: seq<Announcement>) {
    forall a :: a in logs ==> Presents(registry, render(a), a)
  }

  /** Judging the node's logs is judging the announcements they present. */
  lemma {:induction false} JudgedAsAccepted(j: Judge, render: Rendering, logs: seq<Announcement>)
    requires AllPresented(j.registry, render, logs)
    ensures Judged(j, Rendered(render, logs)) == j.Expected(logs)
  {
    hide JudgeLog, Validate, Presents;
    if logs != [] {
      var n := |logs| - 1;
      JudgedAsAccepted(j, render, logs[..n]);
      assert logs[n] in logs;
      assert Rendered(render, logs)[..n] == Rendered(render, logs[..n]);
      JudgedAsAnnounced(j, render(logs[n]), logs[n]);
    }
  }

  function BrowserScore(hash: seq<byte> -> seq<byte>, headHash: seq<byte>, namespace: seq<byte>): Score {
    (identity: Key) => Magnitude(hash(headHash + namespace + identity.peerId))
  }

  /** Absent hash collisions, different libp2p peers have different scores. */
  lemma BrowserScoresDiffer(hash: seq<byte> -> seq<byte>, headHash: seq<byte>, namespace: seq<byte>, ids: set<Key>)
    requires CollisionFree(hash) && forall k :: k in ids ==> k.recordType == RECORD_TYPE_LIBP2P
    ensures DistinctScores(BrowserScore(hash, headHash, namespace), ids)
  {
    hide Magnitude;
    var score, prefix := BrowserScore(hash, headHash, namespace), headHash + namespace;
    forall a, b | a in ids && b in ids && score(a) == score(b)
      ensures a == b
    {
      MagnitudeIsInjective(hash(prefix + a.peerId), hash(prefix + b.peerId));
      assert (prefix + a.peerId)[|prefix|..] == a.peerId && (prefix + b.peerId)[|prefix|..] == b.peerId;
    }
  }

  // ----- The bounded candidate map -----

  class CandidateMap {
    const cap: nat
    const score: Score
    var candidates: map<Key, Candidate>
    ghost var seen: seq<Candidate>

    ghost predicate Valid()
      reads this
    {
      cap >= 1 && IsSample(cap, score, seen, candidates)
    }

    constructor (cap: nat, score: Score)
      requires cap >= 1
      ensures Valid() && seen == [] && this.cap == cap && this.score == score
    {
      this.cap, this.score, candidates, seen := cap, score, map[], [];
      new;
      assert Identities(seen) == {};
    }

    method InsertBounded(candidate: Candidate)
      requires Valid()
      modifies this
      ensures Valid() && seen == old(seen) + [candidate]
    {
      hide IsSample, IsWorst;
      var id := candidate.IdentityKey();
      ghost var kept, history := candidates, seen;
      seen := seen + [candidate];
      if id in candidates {
        SampleRefresh(cap, score, history, kept, candidate);
        if Fresher(candidate, candidates[id]) {
          candidates := candidates[id := candidate];
        }
        return;
      }
      if |candidates| < cap {
        SampleGrow(cap, score, history, kept, candidate);
        candidates := candidates[id := candidate];
        return;
      }
      var incomingScore := score(id);
      var worst := Worst();
      SampleContest(cap, score, history, kept, candidate, worst);
      if incomingScore < score(worst) {
        candidates := candidates - {worst};
        candidates := candidates[id := candidate];
      }
    }

    /** The first key met with the strictly highest score so far. */
    method Worst() returns (worst: Key)
      requires |candidates| >= 1
      ensures IsWorst(score, candidates.Keys, worst)
    {
      var rest := candidates.Keys;
      assert |rest| == |candidates|;
      var found: Option<Key> := None;
      while rest != {}
        invariant rest <= candidates.Keys
        invariant found.None? ==> rest == candidates.Keys
        invariant found.Some? ==> found.value in candidates && forall k :: k in candidates && k !in rest ==> score(k) <= score(found.value)
        decreases |rest|
      {
        var k :| k in rest;
        rest := rest - {k};
        if found.None? || score(k) > score(found.value) {
          found := Some(k);
        }
      }
      worst := found.value;
    }
  }

  // ----- Listing by freshness -----

  /** The fresher comes first; among equally fresh ones, the peer id that collates first. */
  predicate Comes(collate: Score, a: Candidate, b: Candidate) {
    Fresher(a, b) || (CompareFreshness(a, b) == Equal && collate(a.IdentityKey()) < collate(b.IdentityKey()))
  }

  /** Every kept candidate once, none before one that comes first. */
  ghost predicate IsFreshnessListing(collate: Score, kept: map<Key, Candidate>, listed: seq<Candidate>) {
    && |listed| == |kept| && Distinct(KeysOf(listed))
    && (forall i :: 0 <= i < |listed| ==> KeysOf(listed)[i] in kept && kept[KeysOf(listed)[i]] == listed[i])
    && (forall i, j :: 0 <= i < j < |listed| ==> !Comes(collate, listed[j], listed[i]))
  }

  method SortByFreshness(collate: Score, kept: map<Key, Candidate>) returns (listed: seq<Candidate>)
    requires forall k :: k in kept ==> kept[k].IdentityKey() == k
    ensures IsFreshnessListing(collate, kept, listed)
  {
    hide Comes;
    listed := [];
    var rest := kept.Keys;
    assert |rest| == |kept|;
    while rest != {}
      invariant rest <= kept.Keys && |listed| + |rest| == |kept|
      invariant forall i :: 0 <= i < |listed| ==> listed[i].IdentityKey() in kept && kept[listed[i].IdentityKey()] == listed[i]
      invariant forall i :: 0 <= i < |listed| ==> listed[i].IdentityKey() !in rest
      invariant forall i, j :: 0 <= i < j < |listed| ==> listed[i].IdentityKey() != listed[j].IdentityKey()
      invariant forall i, j :: 0 <= i < j < |listed| ==> !Comes(collate, listed[j], listed[i])
      invariant forall i, k :: 0 <= i < |listed| && k in rest ==> !Comes(collate, kept[k], listed[i])
      decreases |rest|
    {
      var best := First(collate, kept, rest);
      listed := listed + [kept[best]];
      rest := rest - {best};
    }
  }

  lemma ComesIsTransitive(collate: Score, a: Candidate, b: Candidate, c: Candidate)
    requires Comes(collate, a, b) && Comes(collate, b, c)
    ensures Comes(collate, a, c) && !Comes(collate, b, a)
  {
  }

  lemma NoneBeforeItself(collate: Score, a: Candidate)
    ensures !Comes(collate, a, a)
  {
  }

  method First(collate: Score, kept: map<Key, Candidate>, ids: set<Key>) returns (best: Key)
    requires ids != {} && ids <= kept.Keys
    ensures best in ids && forall k :: k in ids ==> !Comes(collate, kept[k], kept[best])
  {
    hide Comes;
    var rest := ids;
    best :| best in rest;
    rest := rest - {best};
    NoneBeforeItself(collate, kept[best]);
    while rest != {}
      invariant rest <= ids && best in ids
      invariant forall k :: k in ids && k !in rest ==> !Comes(collate, kept[k], kept[best])
      decreases |rest|
    {
      var k :| k in rest;
      rest := rest - {k};
      if Comes(collate, kept[k], kept[best]) {
        ghost var last := best;
        best := k;
        NoneBeforeItself(collate, kept[k]);
        forall x | x in ids && x !in rest
          ensures !Comes(collate, kept[x], kept[k])
        {
          if Comes(collate, kept[x], kept[k]) {
            ComesIsTransitive(collate, kept[x], kept[k], kept[last]);
          }
        }
      }
    }
  }

  lemma FirstOfListing(collate: Score, kept: map<Key, Candidate>, listed: seq<Candidate>, k: Key)
    requires IsFreshnessListing(collate, kept, listed) && k in kept && listed != []
    ensures kept[k] == listed[0] || !Comes(collate, kept[k], listed[0])
  {
    hide Comes;
    assert |kept.Keys| == |kept|;
    DistinctKeysCount(KeysOf(listed), kept.Keys);
    var i :| 0 <= i < |listed| && KeysOf(listed)[i] == k;
    assert listed[i] == kept[k];
  }

  lemma RestOfListing(collate: Score, kept: map<Key, Candidate>, listed: seq<Candidate>)
    requires IsFreshnessListing(collate, kept, listed) && listed != []
    ensures IsFreshnessListing(collate, kept - {listed[0].IdentityKey()}, listed[1..])
  {
    hide Comes;
    var keys := KeysOf(listed);
    var rest := kept - {keys[0]};
    assert kept == rest[keys[0] := listed[0]];
    assert KeysOf(listed[1..]) == keys[1..];
  }

  /** Peer ids that collate apart leave exactly one listing. */
  lemma {:induction false} FreshnessListingIsUnique(collate: Score, kept: map<Key, Candidate>, a: seq<Candidate>, b: seq<Candidate>)
    requires DistinctScores(collate, kept.Keys) && forall k :: k in kept ==> kept[k].IdentityKey() == k
    requires IsFreshnessListing(collate, kept, a) && IsFreshnessListing(collate, kept, b)
    ensures a == b
  {
    hide IsFreshnessListing;
    ListingSize(collate, kept, a);
    ListingSize(collate, kept, b);
    if a != [] {
      var j, k := a[0].IdentityKey(), b[0].IdentityKey();
      FirstOfListing(collate, kept, a, k);
      FirstOfListing(collate, kept, b, j);
      assert a[0] == b[0];
      RestOfListing(collate, kept, a);
      RestOfListing(collate, kept, b);
      FreshnessListingIsUnique(collate, kept - {j}, a[1..], b[1..]);
      assert a == [a[0]] + a[1..] && b == [b[0]] + b[1..];
    }
  }

  lemma ListingSize(collate: Score, kept: map<Key, Candidate>, listed: seq<Candidate>)
    requires IsFreshnessListing(collate, kept, listed)
    ensures |listed| == |kept|
    ensures listed != [] ==> listed[0].IdentityKey() in kept && kept[listed[0].IdentityKey()] == listed[0]
  {
    if listed != [] {
      assert KeysOf(listed)[0] in kept;
    }
  }

  lemma KeptUnderOwnKey(cap: nat, score: Score, seen: seq<Candidate>, kept: map<Key, Candidate>)
    requires IsSample(cap, score, seen, kept)
    ensures forall k :: k in kept ==> kept[k].IdentityKey() == k
  {
    forall k | k in kept
      ensures kept[k].IdentityKey() == k
    {
      assert IsFreshest(seen, k, kept[k]);
    }
  }

  // ----- The chunk loop -----

  /** `listed` is the bounded best sample of `seen`, by freshness. */
  ghost predicate IsListedSample(cap: nat, score: Score, collate: Score, seen: seq<Candidate>, listed: seq<Candidate>) {
    exists kept :: IsSample(cap, score, seen, kept) && IsFreshnessListing(collate, kept, listed)
  }

  /** With scores and collation that tell identities apart, a history has one listed sample. */
  lemma ListedSampleIsUnique(cap: nat, score: Score, collate: Score, seen: seq<Candidate>, a: seq<Candidate>, b: seq<Candidate>)
    requires DistinctScores(score, Identities(seen)) && DistinctScores(collate, Identities(seen))
    requires IsListedSample(cap, score, collate, seen, a) && IsListedSample(cap, score, collate, seen, b)
    ensures a == b
  {
    hide IsSample, IsFreshnessListing, Identities, IsBatchSample;
    var x :| IsSample(cap, score, seen, x) && IsFreshnessListing(collate, x, a);
    var y :| IsSample(cap, score, seen, y) && IsFreshnessListing(collate, y, b);
    OnlineEqualsBatch(cap, score, seen, x);
    OnlineEqualsBatch(cap, score, seen, y);
    BatchIsUnique(cap, score, seen, x, y);
    KeptUnderOwnKey(cap, score, seen, x);
    KeptWereSeen(cap, score, seen, x);
    FreshnessListingIsUnique(collate, x, a, b);
  }

  lemma KeptWereSeen(cap: nat, score: Score, seen: seq<Candidate>, kept: map<Key, Candidate>)
    requires IsSample(cap, score, seen, kept)
    ensures kept.Keys <= Identities(seen)
  {
    hide Identities, KeepsFreshest;
  }

  /** Exactly the first `maxLogs` logs of a window were counted, judged and sampled. */
  ghost predicate WindowSampled(options: ScanOptions, j: Judge, score: Score, collate: Score, window: seq<EventLog>, out: ScanReport)
    requires options.Valid()
  {
    var taken := window[..Min(options.maxLogs, |window|)];
    && out.logsProcessed == |taken| && out.logsProcessed == out.recordsRejected + |Judged(j, taken)|
    && IsListedSample(options.maxCandidates, score, collate, Judged(j, taken), out.candidates)
  }

  /** What has been taken so far is the first `maxLogs` logs of the blocks from `start` to `next`. */
  ghost predicate JudgedUpTo(maxLogs: nat, j: Judge, render: Rendering, chain: Chain, start: nat, next: nat,
                             processed: nat, rejected: nat, seen: seq<Candidate>) {
    var covered := Rendered(render, chain.Logs(start, next));
    && start <= next && processed == Min(maxLogs, |covered|)
    && seen == Judged(j, covered[..processed]) && processed == rejected + |seen|
  }

  lemma NothingJudged(maxLogs: nat, j: Judge, render: Rendering, chain: Chain, start: nat)
    ensures JudgedUpTo(maxLogs, j, render, chain, start, start, 0, 0, [])
  {
  }

  lemma RenderedConcat(render: Rendering, a: seq<Announcement>, b: seq<Announcement>)
    ensures Rendered(render, a + b) == Rendered(render, a) + Rendered(render, b)
  {
  }

  lemma JudgedMore(maxLogs: nat, j: Judge, render: Rendering, chain: Chain, start: nat, from: nat, to: nat,
                   processed: nat, rejected: nat, seen: seq<Candidate>, taken: seq<EventLog>)
    requires JudgedUpTo(maxLogs, j, render, chain, start, from, processed, rejected, seen) && from <= to && processed < maxLogs
    requires var more := Rendered(render, chain.Logs(from, to + 1)); taken == more[..Min(maxLogs - processed, |more|)]
    ensures var added := Judged(j, taken);
      JudgedUpTo(maxLogs, j, render, chain, start, to + 1, processed + |taken|, rejected + |taken| - |added|, seen + added)
  {
    hide Judged, Rendered, Chain.Logs;
    var covered, more := Rendered(render, chain.Logs(start, from)), Rendered(render, chain.Logs(from, to + 1));
    chain.LogsSplit(start, from, to + 1);
    RenderedConcat(render, chain.Logs(start, from), chain.Logs(from, to + 1));
    assert covered[..processed] == covered;
    assert (covered + more)[..processed + |taken|] == covered + taken;
    JudgedConcat(j, covered, taken);
  }

  /** Judges the logs of one answered query until the cap is reached. */
  method JudgeLogs(maxLogs: nat, j: Judge, store: CandidateMap, logs: seq<EventLog>, processed: nat, rejected: nat,
                   ghost render: Rendering, ghost chain: Chain, ghost start: nat, ghost from: nat, ghost to: nat)
    returns (processed': nat, rejected': nat)
    requires store.Valid() && processed < maxLogs && from <= to
    requires logs == Rendered(render, chain.Logs(from, to + 1))
    requires JudgedUpTo(maxLogs, j, render, chain, start, from, processed, rejected, store.seen)
    modifies store
    ensures store.Valid() && JudgedUpTo(maxLogs, j, render, chain, start, to + 1, processed', rejected', store.seen)
  {
    hide CandidateMap.Valid, JudgedUpTo, Judged, JudgeLog, Chain.Logs, Rendered;
    ghost var seen := store.seen;
    processed', rejected' := processed, rejected;
    var i := 0;
    NothingToJudge(j, logs);
    while i < |logs| && processed' < maxLogs
      invariant 0 <= i <= |logs| && store.Valid()
      invariant processed' == processed + i <= maxLogs
      invariant store.seen == seen + Judged(j, logs[..i])
      invariant rejected' == rejected + i - |Judged(j, logs[..i])|
    {
      processed' := processed' + 1;
      JudgedStep(j, logs, i);
      match JudgeLog(j, logs[i]) {
        case Some(candidate) => store.InsertBounded(candidate);
        case None => rejected' := rejected' + 1;
      }
      i := i + 1;
    }
    assert i == Min(maxLogs - processed, |logs|);
    JudgedMore(maxLogs, j, render, chain, start, from, to, processed, rejected, seen, logs[..i]);
  }

  lemma NothingToJudge(j: Judge, logs: seq<EventLog>)
    ensures Judged(j, logs[..0]) == []
  {
  }

  method ScanWindow(options: ScanOptions, j: Judge, render: Rendering, provider: Provider, score: Score, collate: Score,
                    startBlock: u64, head: u64)
    returns (r: Result<ScanReport, Scanner.ScanError>, queries: nat, ghost asked: seq<Query>)
    requires options.Valid() && startBlock <= head
    ensures queries == |asked|
    ensures r.Success? ==>
              WindowSampled(options, j, score, collate, Rendered(render, provider.chain.Logs(startBlock as nat, head as nat + 1)), r.value)
    ensures r.Success? ==> r.value.startBlock == startBlock as nat && r.value.headBlock == head as nat && r.value.headTimestamp == j.headTimestamp
    ensures var w := Window(provider, startBlock, head, options.initialChunkSize, options.minimumChunkSize);
      match r
      case Success(out) =>
        && CoveredBy(w, asked, Next(w, asked), out.chunkReductions)
        && (out.logsProcessed < options.maxLogs ==> Next(w, asked) == head as nat + 1)
      case Failure(failure) => failure.ProviderFailed? && Stopped(w, asked, failure.error)
  {
    hide CandidateMap.Valid, Chain.Logs, InStep, CoveredBy, Stopped, Next, JudgedUpTo, Rendered, IsSample, WindowSampled, IsFreshnessListing;
    var store := new CandidateMap(options.maxCandidates, score);
    var chunk: nat, minimumChunk: nat := options.initialChunkSize, options.minimumChunkSize;
    var logsProcessed: nat, recordsRejected: nat, chunkReductions: nat := 0, 0, 0;
    var from: nat := startBlock as nat;
    var finished := false;
    ghost var w := Window(provider, startBlock, head, options.initialChunkSize, options.minimumChunkSize);
    queries, asked := 0, [];
    StepBegins(w);
    NothingJudged(options.maxLogs, j, render, provider.chain, from);
    while !finished && from <= head as nat && logsProcessed < options.maxLogs
      invariant store.Valid() && fresh(store) && store.cap == options.maxCandidates && store.score == score
      invariant InStep(w, asked, from, chunk, chunkReductions) && queries == |asked|
      invariant from <= head as nat + 1 && (finished ==> from == head as nat + 1)
      invariant JudgedUpTo(options.maxLogs, j, render, provider.chain, startBlock as nat, from, logsProcessed, recordsRejected, store.seen)
      invariant chunk >= 1 && minimumChunk == w.minimum
      decreases head as nat + 1 - from, chunk
    {
      var to: nat := Min(from + chunk - 1, head as nat);
      var answer := provider.Announcements(queries, from as u64, to as u64);
      ghost var q := Query(from as u64, to as u64);
      queries := queries + 1;
      match answer {
        case Failure(error) =>
          if chunk > minimumChunk && error.RangeLimit? {
            StepRefused(w, asked, from, chunk, chunkReductions, q);
            chunk := Max(chunk / 2, minimumChunk);
            chunkReductions := chunkReductions + 1;
            asked := asked + [q];
          } else {
            StepStopped(w, asked, from, chunk, chunkReductions, q, error);
            asked := asked + [q];
            return Failure(Scanner.ProviderFailed(error)), queries, asked;
          }
        case Success(announcements) =>
          StepAnswered(w, asked, from, chunk, chunkReductions, q);
          logsProcessed, recordsRejected := JudgeLogs(options.maxLogs, j, store, Rendered(render, announcements), logsProcessed, recordsRejected,
                                                      render, provider.chain, startBlock as nat, from, to);
          asked := asked + [q];
          finished := to == head as nat;
          from := to + 1;
      }
    }
    StoreUnderOwnKey(store);
    var candidates := SortByFreshness(collate, store.candidates);
    var out := ScanReport(startBlock as nat, head as nat, j.headTimestamp, logsProcessed, recordsRejected, chunkReductions, candidates);
    WindowDone(options, j, render, store, collate, provider.chain, startBlock as nat, from, head as nat + 1, out);
    StepCovers(w, asked, from, chunk, chunkReductions);
    Scanner.NextIs(w, asked, from, chunkReductions);
    return Success(out), queries, asked;
  }

  lemma StoreUnderOwnKey(store: CandidateMap)
    requires store.Valid()
    ensures forall k :: k in store.candidates ==> store.candidates[k].IdentityKey() == k
  {
    KeptUnderOwnKey(store.cap, store.score, store.seen, store.candidates);
  }

  lemma WindowDone(options: ScanOptions, j: Judge, render: Rendering, store: CandidateMap, collate: Score, chain: Chain,
                   start: nat, next: nat, until: nat, out: ScanReport)
    requires options.Valid() && store.Valid() && store.cap == options.maxCandidates
    requires JudgedUpTo(options.maxLogs, j, render, chain, start, next, out.logsProcessed, out.recordsRejected, store.seen)
    requires next == until || (next <= until && out.logsProcessed >= options.maxLogs)
    requires IsFreshnessListing(collate, store.candidates, out.candidates)
    ensures WindowSampled(options, j, store.score, collate, Rendered(render, chain.Logs(start, until)), out)
  {
    hide IsSample, IsFreshnessListing, Judged, Chain.Logs, Rendered;
    chain.LogsSplit(start, next, until);
    Scanner.LogsOfNothing(chain, until);
    RenderedConcat(render, chain.Logs(start, next), chain.Logs(next, until));
    var covered, rest := Rendered(render, chain.Logs(start, next)), Rendered(render, chain.Logs(next, until));
    assert (covered + rest)[..out.logsProcessed] == covered[..out.logsProcessed];
  }

  // ----- The whole scan -----

  ghost predicate SpacedEnough(chain: Chain, lookback: int, spacing: nat) {
    SpacedBy(chain, spacing) && lookback >= 1 && lookback * spacing >= Beacon.MAX_TTL as int
  }

  /** What a complete window needs of the chain: ordered clocks for the timestamp search, or blocks
      spaced widely enough for the lookback. */
  ghost predicate WindowIsSafe(chain: Chain, options: ScanOptions) {
    match options.maxBlockLookback
    case None => chain.NonDecreasing()
    case Some(lookback) => exists spacing :: SpacedEnough(chain, lookback, spacing)
  }

  /** Nothing the window skips would have been accepted. */
  ghost predicate SkipsNothing(j: Judge, chain: Chain, deployment: nat, start: nat, head: nat) {
    deployment <= start <= head && j.Expected(chain.Logs(start, head + 1)) == j.Expected(chain.Logs(deployment, head + 1))
  }

  lemma SearchedWindowSkipsNothing(j: Judge, chain: Chain, head: BlockInfo, descriptor: Scanner.Descriptor, start: nat)
    requires chain.FromBeacon() && descriptor.maxTtlSeconds == Beacon.MAX_TTL && j.headTimestamp == head.timestamp
    requires Scanner.IsStartBlock(chain, descriptor.deploymentBlock as nat, head.number as nat, Scanner.Cutoff(head, descriptor), start)
    ensures SkipsNothing(j, chain, descriptor.deploymentBlock as nat, start, head.number as nat)
  {
    hide Accepted, Chain.Logs, Chain.FromBeacon;
    var deployment, until := descriptor.deploymentBlock as nat, head.number as nat + 1;
    Scanner.LogsBeforeStartAreExpired(j.Codecs(), j.AsPolicy(), chain, head, descriptor, start);
    chain.LogsSplit(deployment, start, until);
    AcceptedConcat(j.Codecs(), j.AsPolicy(), chain.Logs(deployment, start), chain.Logs(start, until));
  }

  lemma LookbackSkipsNothing(j: Judge, chain: Chain, options: ScanOptions, deployment: nat, latest: u64)
    requires options.Valid() && options.maxBlockLookback.Some? && chain.FromBeacon() && WindowIsSafe(chain, options)
    requires latest <= chain.tip && j.headTimestamp == chain.timestamp(latest as nat)
    requires deployment <= ConfirmedNumber(latest as nat, options.confirmations)
    ensures var head := ConfirmedNumber(latest as nat, options.confirmations);
      SkipsNothing(j, chain, deployment, LookbackStart(deployment, head, options.maxBlockLookback.value), head)
  {
    hide Accepted, Chain.Logs, Chain.FromBeacon, SpacedBy;
    var spacing :| SpacedEnough(chain, options.maxBlockLookback.value, spacing);
    LookbackWindowIsComplete(j.Codecs(), j.AsPolicy(), chain, spacing, options.maxBlockLookback.value, deployment, latest as nat,
                             options.confirmations);
  }

  /** When every log presents its announcement, an uncapped scan of such a window gives the sample of all
      announcements since deployment. */
  lemma WindowGivesAll(options: ScanOptions, j: Judge, render: Rendering, score: Score, collate: Score, chain: Chain,
                       deployment: nat, start: nat, head: nat, out: ScanReport)
    requires options.Valid() && SkipsNothing(j, chain, deployment, start, head)
    requires WindowSampled(options, j, score, collate, Rendered(render, chain.Logs(start, head + 1)), out)
    requires AllPresented(j.registry, render, chain.Logs(start, head + 1)) && |chain.Logs(start, head + 1)| <= options.maxLogs
    ensures IsListedSample(options.maxCandidates, score, collate, j.Expected(chain.Logs(deployment, head + 1)), out.candidates)
  {
    hide Judge.Expected, Judged, Chain.Logs, IsListedSample, AllPresented, Rendered;
    var window := Rendered(render, chain.Logs(start, head + 1));
    assert window[..|window|] == window;
    JudgedAsAccepted(j, render, chain.Logs(start, head + 1));
  }

  /** The latest block, the confirmed number, and the block whose clock and hash the scan uses. */
  datatype Head = Head(latest: u64, number: u64, block: BlockInfo)

  function ReadBlock(answer: Result<Option<BlockInfo>, ProviderError>, what: string): Result<BlockInfo, Scanner.ScanError> {
    match answer
    case Failure(error) => Failure(Scanner.ProviderFailed(error))
    case Success(None) => Failure(Scanner.MissingBlock(what))
    case Success(Some(block)) => Success(block)
  }

  function ChosenHead(provider: Provider, descriptor: Scanner.Descriptor, options: ScanOptions): Result<Head, Scanner.ScanError>
    requires options.Valid()
  {
    match ReadBlock(provider.Tagged(provider.latest), "latest")
    case Failure(error) => Failure(error)
    case Success(latest) =>
      var number := ConfirmedNumber(latest.number as nat, options.confirmations) as u64;
      if number < descriptor.deploymentBlock then Failure(Scanner.DeploymentAfterHead(descriptor.deploymentBlock, number))
      else if options.maxBlockLookback.Some? || number == latest.number then Success(Head(latest.number, number, latest))
      else
        match ReadBlock(provider.Block(number), "confirmed")
        case Failure(error) => Failure(error)
        case Success(block) => Success(Head(latest.number, number, block))
  }

  /** With a lookback the scan lives by the latest block's clock, otherwise by the confirmed block's. */
  lemma ChosenHeadIsOnChain(provider: Provider, descriptor: Scanner.Descriptor, options: ScanOptions)
    requires options.Valid() && ChosenHead(provider, descriptor, options).Success?
    ensures var head := ChosenHead(provider, descriptor, options).value;
      && head.latest <= provider.chain.tip && descriptor.deploymentBlock <= head.number
      && head.number as nat == ConfirmedNumber(head.latest as nat, options.confirmations)
      && provider.chain.BlockAt(if options.maxBlockLookback.Some? then head.latest else head.number) == Some(head.block)
  {
  }

  /** The start block of either kind of window. */
  ghost predicate Starts(provider: Provider, descriptor: Scanner.Descriptor, options: ScanOptions, head: Head, start: u64)
    requires options.Valid()
  {
    match options.maxBlockLookback
    case Some(lookback) => start as nat == LookbackStart(descriptor.deploymentBlock as nat, head.number as nat, lookback)
    case None => Scanner.Starts(provider, descriptor, head.block, start)
  }

  /** Why a scan with valid options fails: the chain, the constants, the head, a read of the timestamp
      search, or a refusal that the provider's own verdicts led to with no smaller chunk to try. */
  ghost predicate Explained(provider: Provider, descriptor: Scanner.Descriptor, options: ScanOptions, error: Scanner.ScanError)
    requires options.Valid()
  {
    || (error.ProviderFailed? && (provider.chainId == Failure(error.error) || provider.constants == Failure(error.error)))
    || (error.WrongChain? && error.expected == descriptor.chainId != error.actual && provider.chainId == Success(error.actual))
    || (error.BadConstants? && provider.constants == Success(error.constants)
        && (error.constants != RegistryConstants(1, 7_776_000, 4096) || descriptor.maxTtlSeconds != 7_776_000))
    || ChosenHead(provider, descriptor, options) == Failure(error)
    || (&& ChosenHead(provider, descriptor, options).Success?
        && WindowFailed(provider, descriptor, options, ChosenHead(provider, descriptor, options).value, error))
  }

  ghost predicate WindowFailed(provider: Provider, descriptor: Scanner.Descriptor, options: ScanOptions, head: Head, error: Scanner.ScanError)
    requires options.Valid()
  {
    || (options.maxBlockLookback.None? && Scanner.UnreadBetween(provider, descriptor.deploymentBlock, head.number, error))
    || exists start: u64, asked ::
         Starts(provider, descriptor, options, head, start) && WindowScanStopped(options, provider, start, head.number, asked, error)
  }

  ghost predicate WindowScanStopped(options: ScanOptions, provider: Provider, start: u64, head: u64, asked: seq<Query>, error: Scanner.ScanError)
    requires options.Valid()
  {
    Scanner.StoppedBy(Window(provider, start, head, options.initialChunkSize, options.minimumChunkSize), asked, error)
  }

  lemma SearchExplained(provider: Provider, descriptor: Scanner.Descriptor, options: ScanOptions, head: Head, n: u64, error: Scanner.ScanError)
    requires options.Valid() && options.maxBlockLookback.None?
    requires ChosenHead(provider, descriptor, options) == Success(head)
    requires descriptor.deploymentBlock <= n < head.number && Scanner.BlockFault(provider, n, error)
    ensures Explained(provider, descriptor, options, error)
  {
    hide ChosenHead, Starts;
    assert Scanner.UnreadBetween(provider, descriptor.deploymentBlock, head.number, error);
  }

  lemma QueryExplained(provider: Provider, descriptor: Scanner.Descriptor, options: ScanOptions, head: Head, start: u64,
                       asked: seq<Query>, error: Scanner.ScanError)
    requires options.Valid() && ChosenHead(provider, descriptor, options) == Success(head)
    requires Starts(provider, descriptor, options, head, start)
    requires WindowScanStopped(options, provider, start, head.number, asked, error)
    ensures Explained(provider, descriptor, options, error)
  {
    hide ChosenHead, Starts, Stopped;
  }

  /** Where the provider answers everything, the only fault of a deployed registry is a confirmed head
      that has not reached its deployment. */
  lemma AnsweredScanSucceeds(provider: Provider, descriptor: Scanner.Descriptor, options: ScanOptions, error: Scanner.ScanError)
    requires options.Valid() && Scanner.AnswersAll(provider) && Scanner.Deployed(provider, descriptor)
    requires Explained(provider, descriptor, options, error)
    ensures error.DeploymentAfterHead? && provider.latest.number as int - options.confirmations < descriptor.deploymentBlock as int
  {
    hide Starts, History, Next, WindowFailed;
    if ChosenHead(provider, descriptor, options).Success? {
      NothingFails(provider, descriptor, options, error);
    }
  }

  lemma NothingFails(provider: Provider, descriptor: Scanner.Descriptor, options: ScanOptions, error: Scanner.ScanError)
    requires options.Valid() && Scanner.AnswersAll(provider) && ChosenHead(provider, descriptor, options).Success?
    ensures !WindowFailed(provider, descriptor, options, ChosenHead(provider, descriptor, options).value, error)
  {
    hide ChosenHead, Starts, History, Next;
    ChosenHeadIsOnChain(provider, descriptor, options);
  }

  /** Everything a complete scan rests on: a beacon chain, a safe window below the cap, and logs that
      present the announcements. */
  ghost predicate CanBeComplete(provider: Provider, options: ScanOptions, j: Judge, render: Rendering, start: nat, head: nat) {
    && provider.chain.FromBeacon() && WindowIsSafe(provider.chain, options)
    && AllPresented(j.registry, render, provider.chain.Logs(start, head + 1))
    && |provider.chain.Logs(start, head + 1)| <= options.maxLogs
  }

  lemma CompleteWhen(provider: Provider, options: ScanOptions, j: Judge, render: Rendering, start: nat, head: nat)
    ensures CanBeComplete(provider, options, j, render, start, head) <==>
              && provider.chain.FromBeacon() && WindowIsSafe(provider.chain, options)
              && AllPresented(j.registry, render, provider.chain.Logs(start, head + 1))
              && |provider.chain.Logs(start, head + 1)| <= options.maxLogs
  {
  }

  lemma WindowIsComplete(provider: Provider, descriptor: Scanner.Descriptor, options: ScanOptions, j: Judge, render: Rendering,
                         score: Score, collate: Score, head: Head, start: u64, out: ScanReport)
    requires options.Valid() && ChosenHead(provider, descriptor, options) == Success(head) && Starts(provider, descriptor, options, head, start)
    requires descriptor.maxTtlSeconds == Beacon.MAX_TTL && j.headTimestamp == head.block.timestamp
    requires WindowSampled(options, j, score, collate, Rendered(render, provider.chain.Logs(start as nat, head.number as nat + 1)), out)
    requires CanBeComplete(provider, options, j, render, start as nat, head.number as nat)
    ensures IsListedSample(options.maxCandidates, score, collate,
                           j.Expected(provider.chain.Logs(descriptor.deploymentBlock as nat, head.number as nat + 1)), out.candidates)
  {
    hide ChosenHead, Judge.Expected, Chain.Logs, Chain.FromBeacon, Chain.NonDecreasing, SkipsNothing, WindowSampled, IsListedSample, AllPresented,
         Rendered, Scanner.IsStartBlock, SpacedEnough;
    ChosenHeadIsOnChain(provider, descriptor, options);
    if options.maxBlockLookback.None? {
      SearchedWindowSkipsNothing(j, provider.chain, head.block, descriptor, start as nat);
    } else {
      LookbackSkipsNothing(j, provider.chain, options, descriptor.deploymentBlock as nat, head.latest);
    }
    WindowGivesAll(options, j, render, score, collate, provider.chain, descriptor.deploymentBlock as nat, start as nat, head.number as nat, out);
  }

  // ----- What a scan reports, log by log -----

  /** The window and the clock, from the provider's latest block and the options alone. */
  ghost predicate ReportsWindow(provider: Provider, descriptor: Scanner.Descriptor, options: ScanOptions, out: ScanReport)
    requires options.Valid()
  {
    && provider.latest.Known? && provider.latest.number <= provider.chain.tip
    && var n, deployment := provider.latest.number as nat, descriptor.deploymentBlock as nat;
       && (n >= options.confirmations ==> out.headBlock + options.confirmations == n)
       && (n < options.confirmations ==> out.headBlock == 0)
       && deployment <= out.headBlock && out.startBlock <= out.headBlock
       && match options.maxBlockLookback
          case Some(lookback) =>
            && out.headBlock + 1 - out.startBlock == Min(lookback, out.headBlock + 1 - deployment)
            && out.headTimestamp == provider.chain.timestamp(n)
          case None =>
            && out.headTimestamp == provider.chain.timestamp(out.headBlock)
            && (provider.chain.NonDecreasing() ==> SearchedTightly(provider.chain, deployment, out))
  }

  /** The window begins with the least block from which something could still be alive at the head. */
  ghost predicate SearchedTightly(chain: Chain, deployment: nat, out: ScanReport) {
    && (forall b: nat :: deployment <= b < out.startBlock ==> chain.timestamp(b) as int + 7_776_000 < out.headTimestamp as int)
    && (out.startBlock < out.headBlock ==> chain.timestamp(out.startBlock) as int + 7_776_000 >= out.headTimestamp as int)
  }

  lemma WindowIsReported(provider: Provider, descriptor: Scanner.Descriptor, options: ScanOptions, head: Head, start: u64, out: ScanReport)
    requires options.Valid() && ChosenHead(provider, descriptor, options) == Success(head) && Starts(provider, descriptor, options, head, start)
    requires descriptor.maxTtlSeconds == 7_776_000
    requires out.startBlock == start as nat && out.headBlock == head.number as nat && out.headTimestamp == head.block.timestamp
    ensures ReportsWindow(provider, descriptor, options, out)
  {
    hide Chain.NonDecreasing, Scanner.IsStartBlock, Scanner.Cutoff;
    ChosenHeadIsOnChain(provider, descriptor, options);
    ConfirmationsAreDeducted(head.latest as nat, options.confirmations);
    if options.maxBlockLookback.Some? {
      LookbackSpan(descriptor.deploymentBlock as nat, head.number as nat, options.maxBlockLookback.value);
    } else if provider.chain.NonDecreasing() {
      Scanner.StartIsTight(provider.chain, descriptor, start as nat, head.block);
    }
  }

  ghost predicate FromGoodLog(registry: string, descriptor: Scanner.Descriptor, options: ScanOptions, codec: Codec, now: u64,
                              logs: seq<EventLog>, x: Candidate)
    requires options.Valid()
  {
    exists log :: log in logs && GoodLog(registry, descriptor, options, codec, now, log, x)
  }

  ghost predicate OnlyGoodLogs(registry: string, descriptor: Scanner.Descriptor, options: ScanOptions, codec: Codec, now: u64,
                               logs: seq<EventLog>, candidates: seq<Candidate>)
    requires options.Valid()
  {
    forall x :: x in candidates ==> FromGoodLog(registry, descriptor, options, codec, now, logs, x)
  }

  ghost predicate IdentitiesFit(descriptor: Scanner.Descriptor, options: ScanOptions, codec: Codec, now: u64, logs: seq<Announcement>,
                                ids: set<Key>)
    requires options.Valid()
  {
    && |ids| <= options.maxCandidates
    && forall a, c :: a in logs && GoodAnnouncement(descriptor, options, codec, now, a, c) ==> Key(c.recordType, c.peerId) in ids
  }

  /** When the identities fit the cap, every good announcement's peer is listed with at least its sequence. */
  ghost predicate AllGoodAnnouncements(descriptor: Scanner.Descriptor, options: ScanOptions, codec: Codec, now: u64, logs: seq<Announcement>,
                                       candidates: seq<Candidate>)
    requires options.Valid()
  {
    (exists ids :: IdentitiesFit(descriptor, options, codec, now, logs, ids)) ==>
      forall a, c :: a in logs && GoodAnnouncement(descriptor, options, codec, now, a, c) ==> Scanner.ListedAsFresh(candidates, c)
  }

  lemma ListedWasJudged(cap: nat, score: Score, collate: Score, seen: seq<Candidate>, listed: seq<Candidate>, x: Candidate)
    requires IsListedSample(cap, score, collate, seen, listed) && x in listed
    ensures x in seen
  {
    hide KeepsLowest, LatestAt, Comes;
    var kept :| IsSample(cap, score, seen, kept) && IsFreshnessListing(collate, kept, listed);
    var i :| 0 <= i < |listed| && listed[i] == x;
    assert kept[KeysOf(listed)[i]] == x;
  }

  lemma KeptIsListed(collate: Score, kept: map<Key, Candidate>, listed: seq<Candidate>, k: Key)
    requires IsFreshnessListing(collate, kept, listed) && k in kept
    ensures kept[k] in listed
  {
    hide Comes;
    assert |kept.Keys| == |kept|;
    DistinctKeysCount(KeysOf(listed), kept.Keys);
    var n :| 0 <= n < |listed| && KeysOf(listed)[n] == k;
    assert listed[n] == kept[k];
  }

  lemma NothingJudgedIsLost(cap: nat, score: Score, collate: Score, seen: seq<Candidate>, listed: seq<Candidate>, x: Candidate)
    requires IsListedSample(cap, score, collate, seen, listed) && x in seen && |Identities(seen)| <= cap
    ensures Scanner.ListedAsFresh(listed, x)
  {
    hide IsSample, IsFreshnessListing, Identities, Fresher;
    var kept :| IsSample(cap, score, seen, kept) && IsFreshnessListing(collate, kept, listed);
    SampleLosesNothing(cap, score, seen, kept, x);
    KeptIsListed(collate, kept, listed, x.IdentityKey());
    assert kept[x.IdentityKey()] in listed;
  }

  lemma {:induction false} JudgedComesFrom(j: Judge, logs: seq<EventLog>, x: Candidate) returns (log: EventLog)
    requires x in Judged(j, logs)
    ensures log in logs && JudgeLog(j, log) == Some(x)
  {
    hide JudgeLog;
    var n := |logs| - 1;
    log := logs[n];
    if JudgeLog(j, log) != Some(x) {
      log := JudgedComesFrom(j, logs[..n], x);
    }
  }

  lemma ListedAreGood(registry: string, descriptor: Scanner.Descriptor, options: ScanOptions, codec: Codec, now: u64,
                      score: Score, collate: Score, window: seq<EventLog>, out: ScanReport)
    requires options.Valid()
    requires WindowSampled(options, JudgeFor(registry, descriptor, options, codec, now), score, collate, window, out)
    ensures OnlyGoodLogs(registry, descriptor, options, codec, now, window, out.candidates)
  {
    hide JudgeFor, IsListedSample, Judged, JudgeLog, GoodLog;
    var j := JudgeFor(registry, descriptor, options, codec, now);
    var taken := window[..Min(options.maxLogs, |window|)];
    forall x | x in out.candidates
      ensures FromGoodLog(registry, descriptor, options, codec, now, window, x)
    {
      ListedWasJudged(options.maxCandidates, score, collate, Judged(j, taken), out.candidates, x);
      var log := JudgedComesFrom(j, taken, x);
      JudgingIsExact(registry, descriptor, options, codec, now, log, x);
      assert log in window;
    }
  }

  lemma AcceptedFit(registry: string, descriptor: Scanner.Descriptor, options: ScanOptions, codec: Codec, now: u64,
                    logs: seq<Announcement>, ids: set<Key>)
    requires options.Valid() && IdentitiesFit(descriptor, options, codec, now, logs, ids)
    ensures |Identities(JudgeFor(registry, descriptor, options, codec, now).Expected(logs))| <= options.maxCandidates
  {
    hide JudgeFor, Judge.Codecs, Judge.AsPolicy, GoodAnnouncement, Accepted, Validate, Admitted, Vouches;
    var j := JudgeFor(registry, descriptor, options, codec, now);
    var seen := j.Expected(logs);
    forall x | x in seen
      ensures x.IdentityKey() in ids
    {
      var a := AcceptedComesFrom(j.Codecs(), j.AsPolicy(), logs, x);
      ValidationIsExact(j.Codecs(), j.AsPolicy(), a);
      var c :| Admitted(j.Codecs(), j.AsPolicy(), a, c);
      AdmittedIsGood(registry, descriptor, options, codec, now, a, c);
    }
    SubsetIsSmaller(Identities(seen), ids);
  }

  lemma GoodAnnouncementIsFound(registry: string, descriptor: Scanner.Descriptor, options: ScanOptions, codec: Codec, now: u64,
                                score: Score, collate: Score, logs: seq<Announcement>, candidates: seq<Candidate>,
                                ids: set<Key>, a: Announcement, c: Candidate)
    requires options.Valid() && IdentitiesFit(descriptor, options, codec, now, logs, ids)
    requires IsListedSample(options.maxCandidates, score, collate, JudgeFor(registry, descriptor, options, codec, now).Expected(logs), candidates)
    requires a in logs && GoodAnnouncement(descriptor, options, codec, now, a, c)
    ensures Scanner.ListedAsFresh(candidates, c)
  {
    hide JudgeFor, Judge.Codecs, Judge.AsPolicy, IsListedSample, IdentitiesFit, GoodAnnouncement, Accepted, Validate, Admitted, Vouches;
    var j := JudgeFor(registry, descriptor, options, codec, now);
    AdmittedIsGood(registry, descriptor, options, codec, now, a, c);
    ValidationIsExact(j.Codecs(), j.AsPolicy(), a);
    AcceptedContains(j.Codecs(), j.AsPolicy(), logs, a);
    AcceptedFit(registry, descriptor, options, codec, now, logs, ids);
    NothingJudgedIsLost(options.maxCandidates, score, collate, j.Expected(logs), candidates, Validate(j.Codecs(), a, j.AsPolicy()).value);
  }

  lemma GoodAnnouncementsAreFound(registry: string, descriptor: Scanner.Descriptor, options: ScanOptions, codec: Codec, now: u64,
                                  score: Score, collate: Score, logs: seq<Announcement>, candidates: seq<Candidate>)
    requires options.Valid()
    requires IsListedSample(options.maxCandidates, score, collate, JudgeFor(registry, descriptor, options, codec, now).Expected(logs), candidates)
    ensures AllGoodAnnouncements(descriptor, options, codec, now, logs, candidates)
  {
    hide JudgeFor, Judge.Expected, IsListedSample, IdentitiesFit, GoodAnnouncement, Scanner.ListedAsFresh;
    if ids :| IdentitiesFit(descriptor, options, codec, now, logs, ids) {
      forall a, c | a in logs && GoodAnnouncement(descriptor, options, codec, now, a, c)
        ensures Scanner.ListedAsFresh(candidates, c)
      {
        GoodAnnouncementIsFound(registry, descriptor, options, codec, now, score, collate, logs, candidates, ids, a, c);
      }
    }
  }

  method ScanRegistry(provider: Provider, render: Rendering, registry: string, descriptor: Scanner.Descriptor, options: ScanOptions,
                      codec: Codec, hash: seq<byte> -> seq<byte>, collate: Score)
    returns (r: Result<ScanReport, BrowserError>)
    ensures !options.Valid() <==> r == Failure(InvalidOptions)
    ensures r == Failure(InvalidOptions) <==>
              || options.confirmations < 0 || options.maxBlockLookback.GetOr(1) < 1
              || options.initialChunkSize < 1 || options.minimumChunkSize < 1
              || options.maxLogs < 1 || options.maxCandidates < 1 || options.maxEndpointsPerRecord < 1
    ensures r.Failure? && options.Valid() ==> r.error.Failed? && Explained(provider, descriptor, options, r.error.error)
    ensures r.Success? ==>
              && provider.chainId == Success(descriptor.chainId)
              && provider.constants == Success(RegistryConstants(1, 7_776_000, 4096)) && descriptor.maxTtlSeconds == 7_776_000
              && ChosenHead(provider, descriptor, options).Success?
    ensures r.Success? ==>
              var head := ChosenHead(provider, descriptor, options).value;
              var out := r.value;
              var j := JudgeFor(registry, descriptor, options, codec, head.block.timestamp);
              var score := BrowserScore(hash, head.block.hash, descriptor.namespace);
              && out.headBlock == head.number as nat && out.headTimestamp == head.block.timestamp && out.startBlock <= U64_MAX as nat
              && Starts(provider, descriptor, options, head, out.startBlock as u64)
              && WindowSampled(options, j, score, collate, Rendered(render, provider.chain.Logs(out.startBlock, out.headBlock + 1)), out)
              && (CanBeComplete(provider, options, j, render, out.startBlock, out.headBlock) ==>
                    IsListedSample(options.maxCandidates, score, collate,
                                   j.Expected(provider.chain.Logs(descriptor.deploymentBlock as nat, out.headBlock + 1)), out.candidates))
    ensures r.Success? ==>
              && ReportsWindow(provider, descriptor, options, r.value)
              && OnlyGoodLogs(registry, descriptor, options, codec, r.value.headTimestamp,
                              Rendered(render, provider.chain.Logs(r.value.startBlock, r.value.headBlock + 1)), r.value.candidates)
    ensures r.Success? && provider.chain.FromBeacon() && WindowIsSafe(provider.chain, options)
            && AllPresented(registry, render, provider.chain.Logs(r.value.startBlock, r.value.headBlock + 1))
            && |provider.chain.Logs(r.value.startBlock, r.value.headBlock + 1)| <= options.maxLogs ==>
              AllGoodAnnouncements(descriptor, options, codec, r.value.headTimestamp,
                                   provider.chain.Logs(descriptor.deploymentBlock as nat, r.value.headBlock + 1), r.value.candidates)
  {
    hide ReportsWindow, OnlyGoodLogs, AllGoodAnnouncements, JudgeFor, AllPresented, WindowIsSafe, BrowserScore;
    hide ChosenHead, Explained, Judge.Expected, Chain.Logs, CanBeComplete, Starts, WindowSampled, IsListedSample, Rendered,
         Scanner.IsStartBlock, CoveredBy, Stopped, Next, Scanner.BlockFault, Scanner.AllRead, Pow2;
    if !options.Valid() {
      return Failure(InvalidOptions);
    }
    var inspected := Inspect(provider, descriptor, options);
    if inspected.Failure? {
      return Failure(Failed(inspected.error));
    }
    var head := inspected.value;
    var started := ChooseStart(provider, descriptor, options, head);
    if started.Failure? {
      return Failure(Failed(started.error));
    }
    var start := started.value;
    var j := JudgeFor(registry, descriptor, options, codec, head.block.timestamp);
    var score := BrowserScore(hash, head.block.hash, descriptor.namespace);
    var scanned, _, asked := ScanWindow(options, j, render, provider, score, collate, start, head.number);
    if scanned.Failure? {
      QueryExplained(provider, descriptor, options, head, start, asked, scanned.error);
      return Failure(Failed(scanned.error));
    }
    JudgeRegistry(registry, descriptor, options, codec, head.block.timestamp);
    WindowIsReported(provider, descriptor, options, head, start, scanned.value);
    ListedAreGood(registry, descriptor, options, codec, head.block.timestamp, score, collate,
                  Rendered(render, provider.chain.Logs(start as nat, head.number as nat + 1)), scanned.value);
    CompleteWhen(provider, options, j, render, start as nat, head.number as nat);
    if CanBeComplete(provider, options, j, render, start as nat, head.number as nat) {
      WindowIsComplete(provider, descriptor, options, j, render, score, collate, head, start, scanned.value);
      GoodAnnouncementsAreFound(registry, descriptor, options, codec, head.block.timestamp, score, collate,
                                provider.chain.Logs(descriptor.deploymentBlock as nat, head.number as nat + 1), scanned.value.candidates);
    }
    return Success(scanned.value);
  }

  /** The chain, the deployed constants and the head, checked in that order. */
  method Inspect(provider: Provider, descriptor: Scanner.Descriptor, options: ScanOptions) returns (r: Result<Head, Scanner.ScanError>)
    requires options.Valid()
    ensures r.Success? ==>
              && provider.chainId == Success(descriptor.chainId)
              && provider.constants == Success(RegistryConstants(1, 7_776_000, 4096)) && descriptor.maxTtlSeconds == 7_776_000
              && ChosenHead(provider, descriptor, options) == r && descriptor.deploymentBlock <= r.value.number
    ensures r.Failure? ==> Explained(provider, descriptor, options, r.error)
  {
    hide WindowFailed;
    if provider.chainId.Failure? {
      return Failure(Scanner.ProviderFailed(provider.chainId.error));
    }
    if provider.chainId.value != descriptor.chainId {
      return Failure(Scanner.WrongChain(descriptor.chainId, provider.chainId.value));
    }
    if provider.constants.Failure? {
      return Failure(Scanner.ProviderFailed(provider.constants.error));
    }
    if !Scanner.ConstantsOk(provider.constants.value, descriptor) {
      return Failure(Scanner.BadConstants(provider.constants.value));
    }
    return ChosenHead(provider, descriptor, options);
  }

  /** The window's first block: searched by timestamp, or a fixed number of blocks back. */
  method ChooseStart(provider: Provider, descriptor: Scanner.Descriptor, options: ScanOptions, head: Head)
    returns (r: Result<u64, Scanner.ScanError>)
    requires options.Valid() && ChosenHead(provider, descriptor, options) == Success(head) && descriptor.deploymentBlock <= head.number
    ensures r.Success? ==> Starts(provider, descriptor, options, head, r.value) && r.value <= head.number
    ensures r.Failure? ==> Explained(provider, descriptor, options, r.error)
  {
    hide ChosenHead, Explained, Scanner.IsStartBlock, Scanner.BlockFault, Scanner.AllRead, Pow2, Chain.NonDecreasing;
    if options.maxBlockLookback.Some? {
      return Success(LookbackStart(descriptor.deploymentBlock as nat, head.number as nat, options.maxBlockLookback.value) as u64);
    }
    ConfirmedIsHead(provider, descriptor, options);
    var searched, blocks := Scanner.FindStartBlock(provider, descriptor.deploymentBlock, head.number, Scanner.Cutoff(head.block, descriptor));
    if searched.Failure? {
      assert blocks[|blocks| - 1] in blocks;
      SearchExplained(provider, descriptor, options, head, blocks[|blocks| - 1], searched.error);
    }
    return searched;
  }

  lemma ConfirmedIsHead(provider: Provider, descriptor: Scanner.Descriptor, options: ScanOptions)
    requires options.Valid() && ChosenHead(provider, descriptor, options).Success? && options.maxBlockLookback.None?
    ensures var head := ChosenHead(provider, descriptor, options).value; head.block.number == head.number
  {
    ChosenHeadIsOnChain(provider, descriptor, options);
  }
}
