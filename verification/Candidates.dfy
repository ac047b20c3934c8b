/** Peer candidates, their freshness order and the bounded candidate store
    (crates/resurrect-core/src/peer_record.rs and validation.rs). */
module Candidates {
  import opened Common

  const RECORD_TYPE_LIBP2P: u32 := 2

  /** A peer identity; `Bytes` is the composite key the store is indexed by. */
  datatype Key = Key(recordType: u32, peerId: seq<byte>) {
    function Bytes(): seq<byte> {
      BigEndian(U32_BYTES, recordType as nat) + peerId
    }
  }

  datatype DiscoverySource = LocalCache | Native | ResurrectRegistry

  datatype Candidate = Candidate(
    recordType: u32,
    peerId: seq<byte>,
    sequence: u64,
    endpoints: seq<string>,
    rawSignedRecord: seq<byte>,
    expiresAt: u64,
    source: DiscoverySource,
    announcementBlock: Option<u64>,
    announcementLogIndex: Option<u64>)
  {
    function IdentityKey(): Key {
      Key(recordType, peerId)
    }
  }

  /** The endpoints that parse as addresses, in order; `addressOf` stands for a library parser. */
  function Parsed<A>(addressOf: string -> Option<A>, endpoints: seq<string>): seq<A> {
    if endpoints == [] then []
    else
      var rest := Parsed(addressOf, endpoints[..|endpoints| - 1]);
      match addressOf(endpoints[|endpoints| - 1])
      case Some(address) => rest + [address]
      case None => rest
  }

  lemma {:induction false} ParsedConcat<A>(addressOf: string -> Option<A>, a: seq<string>, b: seq<string>)
    ensures Parsed(addressOf, a + b) == Parsed(addressOf, a) + Parsed(addressOf, b)
  {
    if b == [] {
      assert a + b == a;
    } else {
      var n := |b| - 1;
      ParsedConcat(addressOf, a, b[..n]);
      assert (a + b)[..|a + b| - 1] == a + b[..n];
      assert (a + b)[|a + b| - 1] == b[n];
    }
  }

  /** Each endpoint that parses contributes its address in its place, and no other contributes any. */
  lemma EachEndpointCounts<A>(addressOf: string -> Option<A>, before: seq<string>, e: string, after: seq<string>)
    ensures Parsed(addressOf, before + [e] + after)
         == Parsed(addressOf, before) + (if addressOf(e).Some? then [addressOf(e).value] else []) + Parsed(addressOf, after)
    ensures Parsed(addressOf, []) == []
  {
    NothingParsed(addressOf);
    hide Parsed;
    ParsedConcat(addressOf, before + [e], after);
    ParsedMore(addressOf, before, e);
  }

  lemma NothingParsed<A>(addressOf: string -> Option<A>)
    ensures Parsed(addressOf, []) == []
  {
  }

  lemma ParsedMore<A>(addressOf: string -> Option<A>, endpoints: seq<string>, e: string)
    ensures Parsed(addressOf, endpoints + [e])
         == Parsed(addressOf, endpoints) + if addressOf(e).Some? then [addressOf(e).value] else []
  {
    assert (endpoints + [e])[..|endpoints|] == endpoints;
  }

  /** The composite key never confuses two codecs or two peers. */
  lemma KeyBytesAreUnambiguous(a: Key, b: Key)
    ensures a.Bytes() == b.Bytes() <==> a == b
  {
    assert Pow256(1) == 0x100 && Pow256(2) == 0x1_0000 && Pow256(3) == 0x100_0000;
    BigEndianRoundTrip(U32_BYTES, a.recordType as nat);
    BigEndianRoundTrip(U32_BYTES, b.recordType as nat);
    assert a.Bytes()[..U32_BYTES] == BigEndian(U32_BYTES, a.recordType as nat);
    assert b.Bytes()[..U32_BYTES] == BigEndian(U32_BYTES, b.recordType as nat);
    assert a.peerId == a.Bytes()[U32_BYTES..] && b.peerId == b.Bytes()[U32_BYTES..];
  }

  // ----- Freshness -----

  datatype Ordering = Less | Equal | Greater {
    function Then(other: Ordering): Ordering {
      if Equal? then other else this
    }
  }

  function CompareU64(x: u64, y: u64): Ordering {
    if x < y then Less else if x == y then Equal else Greater
  }

  function CompareFreshness(left: Candidate, right: Candidate): Ordering {
    CompareU64(left.sequence, right.sequence)
    .Then(CompareU64(left.announcementBlock.GetOr(0), right.announcementBlock.GetOr(0)))
    .Then(CompareU64(left.announcementLogIndex.GetOr(0), right.announcementLogIndex.GetOr(0)))
  }

  predicate Fresher(left: Candidate, right: Candidate) {
    CompareFreshness(left, right) == Greater
  }

  /** A record is fresher by its sequence, then its block, then its log index; a position not known
      counts as zero. */
  lemma FreshnessIsLexicographic(left: Candidate, right: Candidate)
    ensures Fresher(left, right) <==>
              || left.sequence > right.sequence
              || (left.sequence == right.sequence && left.announcementBlock.GetOr(0) > right.announcementBlock.GetOr(0))
              || (left.sequence == right.sequence && left.announcementBlock.GetOr(0) == right.announcementBlock.GetOr(0)
                  && left.announcementLogIndex.GetOr(0) > right.announcementLogIndex.GetOr(0))
  {
  }

  // ----- Deterministic sampling -----

  /** Identities are compared by score. */
  type Score = Key -> nat

  /** The keyed score of an identity, compared as a number; `hash` stands for keccak256. */
  function KeyedScore(hash: seq<byte> -> seq<byte>, seed: seq<byte>): Score {
    (identity: Key) => Magnitude(hash(seed + identity.Bytes()))
  }

  // ----- The batch specification -----

  function Identities(seen: seq<Candidate>): set<Key> {
    set c | c in seen :: c.IdentityKey()
  }

  ghost predicate LatestAt(seen: seq<Candidate>, k: Key, i: nat)
    requires i < |seen|
  {
    && seen[i].IdentityKey() == k
    && (forall j :: 0 <= j < |seen| && seen[j].IdentityKey() == k ==> !Fresher(seen[j], seen[i]))
    && (forall j :: 0 <= j < i && seen[j].IdentityKey() == k ==> Fresher(seen[i], seen[j]))
  }

  /** `c` is the freshest record of identity `k`, the first to arrive among equals. */
  ghost predicate IsFreshest(seen: seq<Candidate>, k: Key, c: Candidate) {
    exists i :: 0 <= i < |seen| && seen[i] == c && LatestAt(seen, k, i)
  }

  /** `kept` holds the lowest scores among `ids`, as many as `cap` allows. */
  ghost predicate KeepsLowest(cap: nat, score: Score, ids: set<Key>, kept: set<Key>) {
    && kept <= ids
    && |kept| == Min(cap, |ids|)
    && (forall k, out :: k in kept && out in ids && out !in kept ==> score(k) <= score(out))
  }

  ghost predicate KeepsFreshest(seen: seq<Candidate>, kept: map<Key, Candidate>) {
    forall k :: k in kept ==> IsFreshest(seen, k, kept[k])
  }

  /** `kept` is a bounded best sample of everything seen: the lowest scores win,
      and each kept identity carries its freshest record. */
  ghost predicate IsSample(cap: nat, score: Score, seen: seq<Candidate>, kept: map<Key, Candidate>) {
    KeepsLowest(cap, score, Identities(seen), kept.Keys) && KeepsFreshest(seen, kept)
  }

  function KeysOf(listed: seq<Candidate>): (keys: seq<Key>)
    ensures |keys| == |listed|
  {
    seq(|listed|, i requires 0 <= i < |listed| => listed[i].IdentityKey())
  }

  ghost predicate Distinct(keys: seq<Key>) {
    forall i, j :: 0 <= i < j < |keys| ==> keys[i] != keys[j]
  }

  ghost predicate Ascending(score: Score, keys: seq<Key>) {
    forall i, j :: 0 <= i < j < |keys| ==> score(keys[i]) <= score(keys[j])
  }

  /** `listed` holds the values of `kept`, each once, by ascending score. */
  ghost predicate IsRanking(score: Score, kept: map<Key, Candidate>, listed: seq<Candidate>) {
    var keys := KeysOf(listed);
    && |keys| == |kept| && Distinct(keys) && Ascending(score, keys)
    && (forall i :: 0 <= i < |keys| ==> keys[i] in kept && kept[keys[i]] == listed[i])
  }

  ghost predicate IsRankedSample(cap: nat, score: Score, seen: seq<Candidate>, listed: seq<Candidate>) {
    exists kept :: IsSample(cap, score, seen, kept) && IsRanking(score, kept, listed)
  }

  ghost predicate DistinctScores(score: Score, ids: set<Key>) {
    forall a, b :: a in ids && b in ids && score(a) == score(b) ==> a == b
  }

  /** What the scores need of keccak256: 32 bytes, and no collision. */
  ghost predicate CollisionFree(hash: seq<byte> -> seq<byte>) {
    (forall x :: |hash(x)| == 32) && forall x, y :: hash(x) == hash(y) ==> x == y
  }

  /** Absent hash collisions, different identities have different scores, whatever the seed. */
  lemma KeyedScoresDiffer(hash: seq<byte> -> seq<byte>, seed: seq<byte>, ids: set<Key>)
    requires CollisionFree(hash)
    ensures DistinctScores(KeyedScore(hash, seed), ids)
  {
    hide Magnitude, Key.Bytes;
    forall a, b | a in ids && b in ids && KeyedScore(hash, seed)(a) == KeyedScore(hash, seed)(b)
      ensures a == b
    {
      MagnitudeIsInjective(hash(seed + a.Bytes()), hash(seed + b.Bytes()));
      assert (seed + a.Bytes())[|seed|..] == a.Bytes() && (seed + b.Bytes())[|seed|..] == b.Bytes();
      KeyBytesAreUnambiguous(a, b);
    }
  }

  /** No two different records of one identity share sequence, block and log index. */
  ghost predicate DistinctPositions(seen: seq<Candidate>) {
    forall c, d :: c in seen && d in seen && c.IdentityKey() == d.IdentityKey() && c != d ==>
      CompareFreshness(c, d) != Equal
  }

  // ----- Freshest record under one more arrival -----

  lemma FreshestSurvivesOther(seen: seq<Candidate>, c: Candidate, k: Key, best: Candidate)
    requires IsFreshest(seen, k, best)
    requires c.IdentityKey() != k || !Fresher(c, best)
    ensures IsFreshest(seen + [c], k, best)
  {
    var i :| 0 <= i < |seen| && seen[i] == best && LatestAt(seen, k, i);
    assert (seen + [c])[i] == best;
    assert LatestAt(seen + [c], k, i);
  }

  lemma FreshestReplaced(seen: seq<Candidate>, c: Candidate, best: Candidate)
    requires IsFreshest(seen, c.IdentityKey(), best) && Fresher(c, best)
    ensures IsFreshest(seen + [c], c.IdentityKey(), c)
  {
    var k, all := c.IdentityKey(), seen + [c];
    forall j | 0 <= j < |seen| && seen[j].IdentityKey() == k
      ensures Fresher(c, all[j]) && !Fresher(all[j], c)
    {
      assert !Fresher(seen[j], best);
    }
    assert LatestAt(all, k, |seen|);
  }

  lemma FreshestFirst(seen: seq<Candidate>, c: Candidate)
    requires c.IdentityKey() !in Identities(seen)
    ensures IsFreshest(seen + [c], c.IdentityKey(), c)
  {
    var k, all := c.IdentityKey(), seen + [c];
    forall j | 0 <= j < |seen|
      ensures all[j].IdentityKey() != k
    {
      assert seen[j] in seen;
    }
    assert LatestAt(all, k, |seen|);
  }

  lemma FreshestIsUnique(seen: seq<Candidate>, k: Key, c: Candidate, d: Candidate)
    requires IsFreshest(seen, k, c) && IsFreshest(seen, k, d)
    ensures c == d
  {
    var i :| 0 <= i < |seen| && seen[i] == c && LatestAt(seen, k, i);
    var j :| 0 <= j < |seen| && seen[j] == d && LatestAt(seen, k, j);
    assert i == j;
  }

  lemma {:induction false} FreshestExists(seen: seq<Candidate>, k: Key) returns (best: Candidate)
    requires k in Identities(seen)
    ensures IsFreshest(seen, k, best)
  {
    var n := |seen| - 1;
    var c, before := seen[n], seen[..n];
    assert seen == before + [c];
    if k in Identities(before) {
      best := FreshestExists(before, k);
      if c.IdentityKey() == k && Fresher(c, best) {
        FreshestReplaced(before, c, best);
        best := c;
      } else {
        FreshestSurvivesOther(before, c, k, best);
      }
    } else {
      FreshestFirst(before, c);
      best := c;
    }
  }

  lemma IdentitiesGrow(seen: seq<Candidate>, c: Candidate)
    ensures Identities(seen + [c]) == Identities(seen) + {c.IdentityKey()}
  {
    var all := seen + [c];
    assert forall d :: d in all <==> d in seen || d == c;
  }

  // ----- What one insertion does to a sample -----

  ghost predicate IsWorst(score: Score, kept: set<Key>, worst: Key) {
    worst in kept && forall k :: k in kept ==> score(k) <= score(worst)
  }

  /** A full sample admits an outsider only if it beats the worst score; such an
      outsider cannot have been turned away or evicted before. */
  lemma LowestAfterContest(cap: nat, score: Score, ids: set<Key>, kept: set<Key>, id: Key, worst: Key)
    requires KeepsLowest(cap, score, ids, kept) && id !in kept && |kept| >= cap
    requires IsWorst(score, kept, worst)
    ensures score(id) < score(worst) ==>
              id !in ids && KeepsLowest(cap, score, ids + {id}, kept - {worst} + {id})
    ensures score(id) >= score(worst) ==> KeepsLowest(cap, score, ids + {id}, kept)
  {
    SubsetIsSmaller(kept, ids);
    SubsetIsSmaller(ids, ids + {id});
    assert |kept - {worst} + {id}| == cap;
  }

  /** While there is room every identity seen is kept, so a new one has never been seen. */
  lemma LowestAfterGrowth(cap: nat, score: Score, ids: set<Key>, kept: set<Key>, id: Key)
    requires KeepsLowest(cap, score, ids, kept) && id !in kept && |kept| < cap
    ensures id !in ids && KeepsLowest(cap, score, ids + {id}, kept + {id})
  {
    SubsetOfSameSize(kept, ids);
  }

  lemma FreshestAfterArrival(seen: seq<Candidate>, kept: map<Key, Candidate>, c: Candidate)
    requires KeepsFreshest(seen, kept)
    requires c.IdentityKey() in kept ==> !Fresher(c, kept[c.IdentityKey()])
    ensures KeepsFreshest(seen + [c], kept)
  {
    forall k | k in kept
      ensures IsFreshest(seen + [c], k, kept[k])
    {
      FreshestSurvivesOther(seen, c, k, kept[k]);
    }
  }

  lemma FreshestAfterAdoption(seen: seq<Candidate>, kept: map<Key, Candidate>, c: Candidate)
    requires KeepsFreshest(seen, kept)
    requires (c.IdentityKey() in kept && Fresher(c, kept[c.IdentityKey()])) || c.IdentityKey() !in Identities(seen)
    ensures KeepsFreshest(seen + [c], kept[c.IdentityKey() := c])
  {
    var id := c.IdentityKey();
    if id in kept && Fresher(c, kept[id]) {
      FreshestReplaced(seen, c, kept[id]);
    } else {
      FreshestFirst(seen, c);
    }
    FreshestAfterArrival(seen, kept - {id}, c);
    forall k | k in kept && k != id
      ensures IsFreshest(seen + [c], k, kept[k])
    {
      assert k in kept - {id};
    }
  }

  /** A further record of a kept identity replaces it exactly when fresher. */
  lemma SampleRefresh(cap: nat, score: Score, seen: seq<Candidate>, kept: map<Key, Candidate>, c: Candidate)
    requires IsSample(cap, score, seen, kept) && c.IdentityKey() in kept
    ensures IsSample(cap, score, seen + [c],
                     if Fresher(c, kept[c.IdentityKey()]) then kept[c.IdentityKey() := c] else kept)
  {
    IdentitiesGrow(seen, c);
    assert Identities(seen + [c]) == Identities(seen);
    if Fresher(c, kept[c.IdentityKey()]) {
      FreshestAfterAdoption(seen, kept, c);
      assert kept[c.IdentityKey() := c].Keys == kept.Keys;
    } else {
      FreshestAfterArrival(seen, kept, c);
    }
  }

  lemma SampleGrow(cap: nat, score: Score, seen: seq<Candidate>, kept: map<Key, Candidate>, c: Candidate)
    requires IsSample(cap, score, seen, kept) && c.IdentityKey() !in kept && |kept| < cap
    ensures IsSample(cap, score, seen + [c], kept[c.IdentityKey() := c])
  {
    hide Identities, KeepsLowest, KeepsFreshest;
    IdentitiesGrow(seen, c);
    assert |kept.Keys| == |kept|;
    LowestAfterGrowth(cap, score, Identities(seen), kept.Keys, c.IdentityKey());
    FreshestAfterAdoption(seen, kept, c);
    assert kept[c.IdentityKey() := c].Keys == kept.Keys + {c.IdentityKey()};
  }

  lemma SampleContest(cap: nat, score: Score, seen: seq<Candidate>, kept: map<Key, Candidate>, c: Candidate, worst: Key)
    requires IsSample(cap, score, seen, kept) && c.IdentityKey() !in kept && |kept| >= cap
    requires IsWorst(score, kept.Keys, worst)
    ensures IsSample(cap, score, seen + [c],
                     if score(c.IdentityKey()) < score(worst) then (kept - {worst})[c.IdentityKey() := c] else kept)
  {
    hide Identities, KeepsLowest;
    var id := c.IdentityKey();
    IdentitiesGrow(seen, c);
    assert |kept.Keys| == |kept|;
    LowestAfterContest(cap, score, Identities(seen), kept.Keys, id, worst);
    if score(id) < score(worst) {
      FreshestAfterAdoption(seen, kept - {worst}, c);
      assert (kept - {worst})[id := c].Keys == kept.Keys - {worst} + {id};
    } else {
      FreshestAfterArrival(seen, kept, c);
    }
  }

  // ----- The online sample is the batch sample -----

  /** How many seen identities score below `k`. */
  ghost function Rank(score: Score, ids: set<Key>, k: Key): nat {
    |set other | other in ids && score(other) < score(k)|
  }

  /** Reference form: scan everything, keep the `cap` lowest scores. */
  ghost predicate IsBatchSample(cap: nat, score: Score, seen: seq<Candidate>, kept: map<Key, Candidate>) {
    && (forall k :: k in kept <==> k in Identities(seen) && Rank(score, Identities(seen), k) < cap)
    && (forall k :: k in kept ==> IsFreshest(seen, k, kept[k]))
  }

  lemma OnlineEqualsBatch(cap: nat, score: Score, seen: seq<Candidate>, kept: map<Key, Candidate>)
    requires IsSample(cap, score, seen, kept)
    requires DistinctScores(score, Identities(seen))
    ensures IsBatchSample(cap, score, seen, kept)
  {
    var ids := Identities(seen);
    assert |kept.Keys| == |kept|;
    forall k | k in ids
      ensures k in kept <==> Rank(score, ids, k) < cap
    {
      var lower := set other | other in ids && score(other) < score(k);
      if k in kept {
        assert lower <= kept.Keys - {k};
        SubsetIsSmaller(lower, kept.Keys - {k});
      } else {
        SubsetIsSmaller(kept.Keys, ids);
        forall other | other in kept
          ensures other in lower
        {
          assert score(other) <= score(k);
        }
        SubsetIsSmaller(kept.Keys, lower);
      }
    }
  }

  ghost predicate SameRecords(a: seq<Candidate>, b: seq<Candidate>) {
    forall c :: c in a <==> c in b
  }

  lemma SameRecordsSameIdentities(a: seq<Candidate>, b: seq<Candidate>)
    requires SameRecords(a, b)
    ensures Identities(a) == Identities(b)
  {
  }

  lemma FreshestIgnoresOrder(a: seq<Candidate>, b: seq<Candidate>, k: Key, c: Candidate)
    requires SameRecords(a, b) && DistinctPositions(a)
    requires IsFreshest(a, k, c)
    ensures IsFreshest(b, k, c)
  {
    var i :| 0 <= i < |a| && a[i] == c && LatestAt(a, k, i);
    assert c in b;
    assert k in Identities(b);
    var d := FreshestExists(b, k);
    var j :| 0 <= j < |b| && b[j] == d && LatestAt(b, k, j);
    assert d in a && !Fresher(c, d);
    var n :| 0 <= n < |a| && a[n] == d;
    assert !Fresher(a[n], a[i]);
  }

  lemma {:induction false} DistinctKeysCount(keys: seq<Key>, ids: set<Key>)
    requires Distinct(keys) && |keys| == |ids| && forall i :: 0 <= i < |keys| ==> keys[i] in ids
    ensures forall k :: k in ids ==> k in keys
  {
    if keys != [] {
      var n := |keys| - 1;
      DistinctKeysCount(keys[..n], ids - {keys[n]});
      assert keys == keys[..n] + [keys[n]];
    }
  }

  /** `order` lists exactly `ids`, by ascending score. */
  ghost predicate Lists(score: Score, ids: set<Key>, order: seq<Key>) {
    Distinct(order) && Ascending(score, order) && |order| == |ids| && forall i :: 0 <= i < |order| ==> order[i] in ids
  }

  lemma LastIsHighest(score: Score, ids: set<Key>, order: seq<Key>)
    requires Lists(score, ids, order) && order != []
    ensures IsWorst(score, ids, order[|order| - 1])
    ensures Lists(score, ids - {order[|order| - 1]}, order[..|order| - 1])
  {
    DistinctKeysCount(order, ids);
    var n := |order| - 1;
    forall k | k in ids
      ensures score(k) <= score(order[n])
    {
      var i :| 0 <= i < |order| && order[i] == k;
    }
  }

  lemma {:induction false} AscendingIsUnique(score: Score, ids: set<Key>, a: seq<Key>, b: seq<Key>)
    requires DistinctScores(score, ids)
    requires Lists(score, ids, a) && Lists(score, ids, b)
    ensures a == b
  {
    hide Distinct, Ascending;
    if a != [] {
      var n := |a| - 1;
      LastIsHighest(score, ids, a);
      LastIsHighest(score, ids, b);
      assert a[n] == b[n];
      AscendingIsUnique(score, ids - {a[n]}, a[..n], b[..n]);
      assert a == a[..n] + [a[n]] && b == b[..n] + [b[n]];
    }
  }

  /** Distinct scores leave exactly one ranking of a map. */
  lemma RankingIsUnique(score: Score, kept: map<Key, Candidate>, a: seq<Candidate>, b: seq<Candidate>)
    requires DistinctScores(score, kept.Keys)
    requires IsRanking(score, kept, a) && IsRanking(score, kept, b)
    ensures a == b
  {
    assert |kept.Keys| == |kept|;
    AscendingIsUnique(score, kept.Keys, KeysOf(a), KeysOf(b));
    forall i | 0 <= i < |a|
      ensures a[i] == b[i]
    {
      assert KeysOf(a)[i] == KeysOf(b)[i];
    }
  }

  lemma SamplesAgree(cap: nat, score: Score, a: seq<Candidate>, b: seq<Candidate>,
                     keptA: map<Key, Candidate>, keptB: map<Key, Candidate>)
    requires SameRecords(a, b) && DistinctPositions(a)
    requires Identities(a) == Identities(b)
    requires IsBatchSample(cap, score, a, keptA) && IsBatchSample(cap, score, b, keptB)
    ensures keptA == keptB
  {
    hide Identities, IsFreshest, DistinctPositions, SameRecords, Rank;
    forall k | k in keptA
      ensures k in keptB && keptA[k] == keptB[k]
    {
      FreshestIgnoresOrder(a, b, k, keptA[k]);
      FreshestIsUnique(b, k, keptA[k], keptB[k]);
    }
    assert keptA.Keys == keptB.Keys;
  }

  lemma BatchIsUnique(cap: nat, score: Score, seen: seq<Candidate>, a: map<Key, Candidate>, b: map<Key, Candidate>)
    requires IsBatchSample(cap, score, seen, a) && IsBatchSample(cap, score, seen, b)
    ensures a == b
  {
    hide Identities, IsFreshest, Rank;
    forall k | k in a
      ensures k in b && a[k] == b[k]
    {
      FreshestIsUnique(seen, k, a[k], b[k]);
    }
    assert a.Keys == b.Keys;
  }

  /** Distinct scores leave exactly one ranked sample of a history. */
  lemma RankedSampleIsUnique(cap: nat, score: Score, seen: seq<Candidate>, a: seq<Candidate>, b: seq<Candidate>)
    requires DistinctScores(score, Identities(seen))
    requires IsRankedSample(cap, score, seen, a) && IsRankedSample(cap, score, seen, b)
    ensures a == b
  {
    hide IsSample, IsRanking, Identities, DistinctScores, IsBatchSample;
    var x :| IsSample(cap, score, seen, x) && IsRanking(score, x, a);
    var y :| IsSample(cap, score, seen, y) && IsRanking(score, y, b);
    OnlineEqualsBatch(cap, score, seen, x);
    OnlineEqualsBatch(cap, score, seen, y);
    BatchIsUnique(cap, score, seen, x, y);
    RankingIsUniqueInSample(cap, score, seen, x, a, b);
  }

  /** The ranked sample depends only on which records arrived, not on their order or repetition. */
  lemma RankedSampleIgnoresOrder(cap: nat, score: Score, a: seq<Candidate>, b: seq<Candidate>,
                                 listedA: seq<Candidate>, listedB: seq<Candidate>)
    requires SameRecords(a, b)
    requires DistinctScores(score, Identities(a)) && DistinctPositions(a)
    requires IsRankedSample(cap, score, a, listedA)
    requires IsRankedSample(cap, score, b, listedB)
    ensures listedA == listedB
  {
    hide IsSample, IsRanking, Identities, DistinctScores, DistinctPositions, SameRecords, IsBatchSample;
    var x :| IsSample(cap, score, a, x) && IsRanking(score, x, listedA);
    var y :| IsSample(cap, score, b, y) && IsRanking(score, y, listedB);
    SameRecordsSameIdentities(a, b);
    OnlineEqualsBatch(cap, score, a, x);
    OnlineEqualsBatch(cap, score, b, y);
    SamplesAgree(cap, score, a, b, x, y);
    RankingIsUniqueInSample(cap, score, a, x, listedA, listedB);
  }

  lemma RankingIsUniqueInSample(cap: nat, score: Score, seen: seq<Candidate>, kept: map<Key, Candidate>,
                                a: seq<Candidate>, b: seq<Candidate>)
    requires DistinctScores(score, Identities(seen)) && IsSample(cap, score, seen, kept)
    requires IsRanking(score, kept, a) && IsRanking(score, kept, b)
    ensures a == b
  {
    hide KeepsFreshest, IsRanking, Identities;
    RankingIsUnique(score, kept, a, b);
  }

  /** When the identities fit the cap, each is kept with a record no offered one is fresher than. */
  lemma SampleLosesNothing(cap: nat, score: Score, seen: seq<Candidate>, kept: map<Key, Candidate>, c: Candidate)
    requires IsSample(cap, score, seen, kept) && c in seen && |Identities(seen)| <= cap
    ensures var id := c.IdentityKey(); id in kept && kept[id].IdentityKey() == id && !Fresher(c, kept[id]) && kept[id].sequence >= c.sequence
  {
    hide IsFreshest;
    assert |kept.Keys| == |kept|;
    SubsetOfSameSize(kept.Keys, Identities(seen));
    assert c.IdentityKey() in kept.Keys;
    FreshestDominates(seen, c.IdentityKey(), kept[c.IdentityKey()], c);
  }

  lemma KeptIsListed(score: Score, kept: map<Key, Candidate>, listed: seq<Candidate>, k: Key)
    requires IsRanking(score, kept, listed) && k in kept
    ensures kept[k] in listed
  {
    assert |kept.Keys| == |kept|;
    DistinctKeysCount(KeysOf(listed), kept.Keys);
    var n :| 0 <= n < |listed| && KeysOf(listed)[n] == k;
    assert listed[n] == kept[k];
  }

  /** An identity that fits the cap is listed with a record at least as fresh as any that arrived. */
  lemma NothingFreshIsLost(cap: nat, score: Score, seen: seq<Candidate>, listed: seq<Candidate>, c: Candidate)
    returns (found: Candidate)
    requires IsRankedSample(cap, score, seen, listed)
    requires c in seen && |Identities(seen)| <= cap
    ensures found in listed && found.IdentityKey() == c.IdentityKey() && !Fresher(c, found)
    ensures found.sequence >= c.sequence
  {
    hide IsSample, IsRanking, Identities, Fresher;
    var kept :| IsSample(cap, score, seen, kept) && IsRanking(score, kept, listed);
    SampleLosesNothing(cap, score, seen, kept, c);
    found := kept[c.IdentityKey()];
    KeptIsListed(score, kept, listed, c.IdentityKey());
  }

  lemma ListedWasSeen(cap: nat, score: Score, seen: seq<Candidate>, listed: seq<Candidate>, c: Candidate)
    requires IsRankedSample(cap, score, seen, listed) && c in listed
    ensures c in seen
  {
    hide KeepsLowest, LatestAt;
    var kept :| IsSample(cap, score, seen, kept) && IsRanking(score, kept, listed);
    var i :| 0 <= i < |listed| && listed[i] == c;
    assert kept[KeysOf(listed)[i]] == c;
  }

  lemma FreshestDominates(seen: seq<Candidate>, k: Key, best: Candidate, c: Candidate)
    requires IsFreshest(seen, k, best) && c in seen && c.IdentityKey() == k
    ensures best in seen && best.IdentityKey() == k && !Fresher(c, best)
  {
    var i :| 0 <= i < |seen| && seen[i] == best && LatestAt(seen, k, i);
    var j :| 0 <= j < |seen| && seen[j] == c;
    assert !Fresher(seen[j], seen[i]);
  }

  // ----- The store -----

  datatype CandidateInsert = Inserted | Replaced | Stale | SampledOut

  class CandidateStore {
    const maxCandidates: nat
    const score: Score
    var candidates: map<Key, Candidate>
    /** Every candidate ever offered, in order. */
    ghost var seen: seq<Candidate>

    ghost predicate Valid()
      reads this
    {
      maxCandidates >= 1 && IsSample(maxCandidates, score, seen, candidates)
    }

    constructor (cap: nat, score: Score)
      ensures Valid() && seen == [] && candidates == map[]
      ensures maxCandidates == Max(cap, 1) && this.score == score
    {
      this.maxCandidates := if cap >= 1 then cap else 1;
      this.score := score;
      candidates := map[];
      seen := [];
      new;
      assert Identities(seen) == {};
    }

    method Insert(candidate: Candidate) returns (outcome: CandidateInsert)
      requires Valid()
      modifies this
      ensures Valid() && seen == old(seen) + [candidate]
      ensures var id := candidate.IdentityKey();
        match outcome
        case Replaced => id in old(candidates) && Fresher(candidate, old(candidates)[id]) && candidates == old(candidates)[id := candidate]
        case Stale => id in old(candidates) && !Fresher(candidate, old(candidates)[id]) && candidates == old(candidates)
        case SampledOut =>
          id !in old(candidates) && |old(candidates)| == maxCandidates && candidates == old(candidates)
          && forall k :: k in candidates ==> score(k) <= score(id)
        case Inserted =>
          id !in old(candidates)
          && if |old(candidates)| < maxCandidates then candidates == old(candidates)[id := candidate]
             else exists worst :: IsWorst(score, old(candidates).Keys, worst) && score(id) < score(worst)
                               && candidates == (old(candidates) - {worst})[id := candidate]
    {
      var identity := candidate.IdentityKey();
      ghost var kept, history := candidates, seen;
      seen := seen + [candidate];
      if identity in candidates {
        SampleRefresh(maxCandidates, score, history, kept, candidate);
        if Fresher(candidate, candidates[identity]) {
          candidates := candidates[identity := candidate];
          return Replaced;
        }
        return Stale;
      }
      if |candidates| < maxCandidates {
        SampleGrow(maxCandidates, score, history, kept, candidate);
        candidates := candidates[identity := candidate];
        return Inserted;
      }
      var incomingScore := score(identity);
      var worst := Worst();
      SampleContest(maxCandidates, score, history, kept, candidate, worst);
      if incomingScore < score(worst) {
        candidates := candidates - {worst};
        candidates := candidates[identity := candidate];
        return Inserted;
      }
      return SampledOut;
    }

    /** The kept identity with the highest score. */
    method Worst() returns (worst: Key)
      requires |candidates| > 0
      ensures IsWorst(score, candidates.Keys, worst)
    {
      var rest := candidates.Keys;
      assert |rest| == |candidates|;
      worst :| worst in rest;
      rest := rest - {worst};
      while rest != {}
        invariant rest <= candidates.Keys && worst in candidates
        invariant forall k :: k in candidates && k !in rest ==> score(k) <= score(worst)
        decreases |rest|
      {
        var k :| k in rest;
        rest := rest - {k};
        if score(worst) <= score(k) {
          worst := k;
        }
      }
    }

    /** Kept candidates by ascending score. */
    method Ranked() returns (listed: seq<Candidate>)
      requires Valid()
      ensures IsRanking(score, candidates, listed)
      ensures IsRankedSample(maxCandidates, score, seen, listed)
    {
      var order := SortByScore(score, candidates.Keys);
      assert |candidates.Keys| == |candidates|;
      var kept := candidates;
      listed := seq(|order|, i requires 0 <= i < |order| => kept[order[i]]);
      forall i | 0 <= i < |order|
        ensures KeysOf(listed)[i] == order[i]
      {
        assert IsFreshest(seen, order[i], candidates[order[i]]);
      }
      assert KeysOf(listed) == order;
    }
  }

  /** The library sort by key, as repeated selection of the lowest score. */
  method SortByScore(score: Score, ids: set<Key>) returns (order: seq<Key>)
    ensures Distinct(order) && Ascending(score, order)
    ensures |order| == |ids| && forall i :: 0 <= i < |order| ==> order[i] in ids
  {
    order := [];
    var rest := ids;
    while rest != {}
      invariant rest <= ids && |order| + |rest| == |ids|
      invariant Distinct(order) && Ascending(score, order)
      invariant forall i :: 0 <= i < |order| ==> order[i] in ids && order[i] !in rest
      invariant forall i, k :: 0 <= i < |order| && k in rest ==> score(order[i]) <= score(k)
      decreases |rest|
    {
      var best := Lowest(score, rest);
      order := order + [best];
      rest := rest - {best};
    }
  }

  method Lowest(score: Score, ids: set<Key>) returns (best: Key)
    requires ids != {}
    ensures best in ids && forall k :: k in ids ==> score(best) <= score(k)
  {
    var rest := ids;
    best :| best in rest;
    rest := rest - {best};
    while rest != {}
      invariant rest <= ids && best in ids
      invariant forall k :: k in ids && k !in rest ==> score(best) <= score(k)
      decreases |rest|
    {
      var k :| k in rest;
      rest := rest - {k};
      if score(k) < score(best) {
        best := k;
      }
    }
  }
}
