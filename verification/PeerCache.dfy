/** The on-disk cache of verified records (crates/resurrect-node/src/cache.rs). The SQL table is a
    map and the clock an input. */
module PeerCache {
  import opened Common
  import opened Candidates
  import opened Validation
  import Beacon

  const I64_MAX: u64 := 0x7FFF_FFFF_FFFF_FFFF
  const MAX_ENDPOINTS: nat := 16

  /** Primary key and columns as SQLite holds them: signed integers, possibly out of range. */
  datatype RowKey = RowKey(namespace: seq<byte>, recordType: int, peerId: seq<byte>)

  datatype Row = Row(sequence: int, rawSignedRecord: seq<byte>, expiresAt: int, block: Option<int>, logIndex: Option<int>)

  type Table = map<RowKey, Row>

  datatype CacheError = NumericOverflow(field: string) | InvalidRow(field: string)

  function ToI64(value: u64, field: string): Result<int, CacheError> {
    if value <= I64_MAX then Success(value as int) else Failure(NumericOverflow(field))
  }

  function OptionalToI64(value: Option<u64>, field: string): Result<Option<int>, CacheError> {
    match value
    case None => Success(None)
    case Some(v) =>
      match ToI64(v, field)
      case Success(n) => Success(Some(n))
      case Failure(error) => Failure(error)
  }

  function KeyFor(namespace: seq<byte>, c: Candidate): RowKey {
    RowKey(namespace, c.recordType as int, c.peerId)
  }

  function ToRow(c: Candidate): (r: Result<Row, CacheError>)
    ensures r.Success? <==> InRange(c)
  {
    var sequence := ToI64(c.sequence, "sequence");
    var expiresAt := ToI64(c.expiresAt, "expires_at");
    var block := OptionalToI64(c.announcementBlock, "announcement_block");
    var logIndex := OptionalToI64(c.announcementLogIndex, "announcement_log_index");
    if sequence.Failure? then Failure(sequence.error)
    else if expiresAt.Failure? then Failure(expiresAt.error)
    else if block.Failure? then Failure(block.error)
    else if logIndex.Failure? then Failure(logIndex.error)
    else Success(Row(sequence.value, c.rawSignedRecord, expiresAt.value, block.value, logIndex.value))
  }

  /** Every number of the candidate fits a signed 64-bit column. */
  predicate InRange(c: Candidate) {
    && c.sequence < 0x8000_0000_0000_0000 && c.expiresAt < 0x8000_0000_0000_0000
    && c.announcementBlock.GetOr(0) < 0x8000_0000_0000_0000 && c.announcementLogIndex.GetOr(0) < 0x8000_0000_0000_0000
  }

  /** The order the conflict clause compares by: sequence, then block. */
  predicate Precedes(a: Row, b: Row) {
    a.sequence < b.sequence || (a.sequence == b.sequence && a.block.GetOr(0) < b.block.GetOr(0))
  }

  /** A conflicting row is updated unless the incoming one precedes it. */
  function Upsert(table: Table, key: RowKey, row: Row): Table {
    if key in table && Precedes(row, table[key]) then table else table[key := row]
  }

  // ----- What a row means: the best record stored under its key -----

  /** The rows stored under each key since the key was last pruned. */
  type Histories = map<RowKey, seq<Row>>

  function History(histories: Histories, key: RowKey): seq<Row> {
    if key in histories then histories[key] else []
  }

  ghost predicate BestAt(history: seq<Row>, i: nat)
    requires i < |history|
  {
    && (forall j :: 0 <= j < |history| ==> !Precedes(history[i], history[j]))
    && (forall j :: i < j < |history| ==> Precedes(history[j], history[i]))
  }

  /** `row` is the last stored among those with the greatest sequence and block. */
  ghost predicate IsBest(history: seq<Row>, row: Row) {
    exists i :: 0 <= i < |history| && history[i] == row && BestAt(history, i)
  }

  ghost predicate KeepsBest(table: Table, histories: Histories) {
    table.Keys == histories.Keys && forall k :: k in table ==> IsBest(histories[k], table[k])
  }

  lemma BestAfterOne(history: seq<Row>, best: Row, row: Row)
    requires IsBest(history, best)
    ensures IsBest(history + [row], if Precedes(row, best) then best else row)
  {
    var i :| 0 <= i < |history| && history[i] == best && BestAt(history, i);
    var all := history + [row];
    if Precedes(row, best) {
      assert all[i] == best && BestAt(all, i);
    } else {
      forall j | 0 <= j < |history|
        ensures !Precedes(row, history[j])
      {
        assert !Precedes(best, history[j]);
      }
      assert BestAt(all, |history|);
    }
  }

  lemma UpsertKeepsBest(table: Table, histories: Histories, key: RowKey, row: Row)
    requires KeepsBest(table, histories)
    ensures KeepsBest(Upsert(table, key, row), histories[key := History(histories, key) + [row]])
  {
    hide IsBest, Precedes;
    if key in table {
      BestAfterOne(histories[key], table[key], row);
    } else {
      OnlyRowIsBest(row);
      assert [] + [row] == [row];
    }
  }

  lemma OnlyRowIsBest(row: Row)
    ensures IsBest([row], row)
  {
    assert BestAt([row], 0);
  }

  lemma BestIsUnique(history: seq<Row>, a: Row, b: Row)
    requires IsBest(history, a) && IsBest(history, b)
    ensures a == b
  {
    var i :| 0 <= i < |history| && history[i] == a && BestAt(history, i);
    var j :| 0 <= j < |history| && history[j] == b && BestAt(history, j);
    assert i == j;
  }

  /** The histories decide the table: no other table keeps the best of each. */
  lemma TableIsDetermined(a: Table, b: Table, histories: Histories)
    requires KeepsBest(a, histories) && KeepsBest(b, histories)
    ensures a == b
  {
    hide IsBest;
    forall k | k in a
      ensures k in b && a[k] == b[k]
    {
      assert k in histories.Keys;
      BestIsUnique(histories[k], a[k], b[k]);
    }
    assert a.Keys == b.Keys;
  }

  /** The histories after a batch that fits the columns. */
  function Recorded(histories: Histories, namespace: seq<byte>, batch: seq<Candidate>): Histories
    requires forall c :: c in batch ==> InRange(c)
  {
    if batch == [] then histories
    else
      var n := |batch| - 1;
      var before := Recorded(histories, namespace, batch[..n]);
      var key := KeyFor(namespace, batch[n]);
      assert batch[n] in batch;
      before[key := History(before, key) + [ToRow(batch[n]).value]]
  }

  /** The rows a batch holds for one key, in order. */
  function RowsFor(namespace: seq<byte>, batch: seq<Candidate>, key: RowKey): seq<Row>
    requires forall c :: c in batch ==> InRange(c)
  {
    if batch == [] then []
    else
      var n := |batch| - 1;
      assert batch[n] in batch;
      RowsFor(namespace, batch[..n], key) + if KeyFor(namespace, batch[n]) == key then [ToRow(batch[n]).value] else []
  }

  /** A batch extends each key's history by its own rows for that key. */
  lemma {:induction false} RecordedPerKey(histories: Histories, namespace: seq<byte>, batch: seq<Candidate>, key: RowKey)
    requires forall c :: c in batch ==> InRange(c)
    ensures History(Recorded(histories, namespace, batch), key) == History(histories, key) + RowsFor(namespace, batch, key)
  {
    if batch != [] {
      RecordedPerKey(histories, namespace, batch[..|batch| - 1], key);
    }
  }

  // ----- Agreement with the candidate freshness order -----

  /** An incoming record replaces the cached one exactly when the cached one is not fresher, or is
      fresher only by its log index, which the conflict clause ignores. */
  lemma UpsertAgainstFreshness(cached: Candidate, incoming: Candidate)
    requires InRange(cached) && InRange(incoming)
    ensures !Precedes(ToRow(incoming).value, ToRow(cached).value) <==>
              !Fresher(cached, incoming)
              || (cached.sequence == incoming.sequence && cached.announcementBlock.GetOr(0) == incoming.announcementBlock.GetOr(0))
  {
  }

  /** A record of the same block with a lower log index displaces a fresher one. */
  lemma LogIndexIsIgnored(c: Candidate, namespace: seq<byte>)
    requires InRange(c)
    ensures var newer := c.(announcementBlock := Some(7), announcementLogIndex := Some(2));
      var older := c.(announcementBlock := Some(7), announcementLogIndex := Some(1));
      var key := KeyFor(namespace, c);
      && Fresher(newer, older)
      && Upsert(Upsert(map[], key, ToRow(newer).value), key, ToRow(older).value) == map[key := ToRow(older).value]
  {
  }

  /** The cached record is one of the freshest stored exactly when no other of its sequence and
      block was stored with a higher log index. */
  lemma BestIsFreshest(history: seq<Candidate>, rows: seq<Row>, best: Candidate)
    requires |rows| == |history| && forall i :: 0 <= i < |rows| ==> InRange(history[i]) && rows[i] == ToRow(history[i]).value
    requires InRange(best) && IsBest(rows, ToRow(best).value)
    ensures (forall i :: 0 <= i < |history| ==> !Fresher(history[i], best))
       <==> (forall i :: 0 <= i < |history| && SamePlace(history[i], best) ==>
               history[i].announcementLogIndex.GetOr(0) <= best.announcementLogIndex.GetOr(0))
  {
    var n :| 0 <= n < |rows| && rows[n] == ToRow(best).value && BestAt(rows, n);
    forall i | 0 <= i < |history|
      ensures Fresher(history[i], best) <==>
                SamePlace(history[i], best) && history[i].announcementLogIndex.GetOr(0) > best.announcementLogIndex.GetOr(0)
    {
      assert !Precedes(rows[n], rows[i]);
    }
  }

  predicate SamePlace(a: Candidate, b: Candidate) {
    a.sequence == b.sequence && a.announcementBlock.GetOr(0) == b.announcementBlock.GetOr(0)
  }

  // ----- Loading -----

  ghost predicate WellFormed(key: RowKey, row: Row) {
    && 0 <= key.recordType <= U32_MAX as int
    && 0 <= row.expiresAt <= U64_MAX as int
    && 0 <= row.block.GetOr(0) <= U64_MAX as int
    && 0 <= row.logIndex.GetOr(0) <= U64_MAX as int
  }

  /** The first bad column of a row, if any. */
  function Checked(key: RowKey, row: Row): (r: Result<Announcement, CacheError>)
    ensures r.Success? <==> WellFormed(key, row)
  {
    if !(0 <= key.recordType <= U32_MAX as int) then Failure(InvalidRow("record_type"))
    else if !(0 <= row.expiresAt <= U64_MAX as int) then Failure(InvalidRow("expires_at"))
    else if !(0 <= row.block.GetOr(0) <= U64_MAX as int) then Failure(InvalidRow("announcement_block"))
    else if !(0 <= row.logIndex.GetOr(0) <= U64_MAX as int) then Failure(InvalidRow("announcement_log_index"))
    else
      Success(Announcement(key.namespace, key.recordType as u32, row.expiresAt as u64, row.rawSignedRecord,
                           row.block.GetOr(0) as u64, row.logIndex.GetOr(0) as u64))
  }

  /** A row that the cache stored is well formed, and gives back the announcement it came from:
      revalidated while unexpired, it yields the very candidate that was stored. */
  lemma StoredRowRoundTrip(codecs: map<u32, Codec>, a: Announcement, policy: Policy, now: u64, c: Candidate)
    requires Validate(codecs, a, policy) == Success(c) && c.rawSignedRecord == a.peerRecord
    requires InRange(c) && now < a.validUntil
    ensures var reread := Checked(KeyFor(policy.expectedNamespace, c), ToRow(c).value);
      reread.Success? && Validate(codecs, reread.value, policy.(chainTime := now)) == Success(c)
  {
  }

  /** An answer to the load query: every row of the namespace once, newest sequence and block first. */
  ghost predicate IsQueryResult(table: Table, namespace: seq<byte>, order: seq<RowKey>) {
    && (forall k :: k in order <==> k in table && k.namespace == namespace)
    && (forall i, j :: 0 <= i < j < |order| ==> order[i] != order[j])
    && (forall i, j :: 0 <= i < j < |order| ==> !Precedes(table[order[i]], table[order[j]]))
  }

  ghost predicate AllWellFormed(table: Table, order: seq<RowKey>) {
    forall k :: k in order ==> k in table && WellFormed(k, table[k])
  }

  ghost function Announcements(table: Table, order: seq<RowKey>): (r: seq<Announcement>)
    requires AllWellFormed(table, order)
    ensures |r| == |order|
    ensures forall i :: 0 <= i < |order| ==> Checked(order[i], table[order[i]]) == Success(r[i])
  {
    seq(|order|, i requires 0 <= i < |order| => assert order[i] in order; Checked(order[i], table[order[i]]).value)
  }

  function FromCache(c: Candidate): Candidate {
    c.(source := LocalCache)
  }

  /** The candidates that revalidate, relabelled as coming from the cache. */
  function Revalidated(codecs: map<u32, Codec>, policy: Policy, rows: seq<Announcement>): (r: seq<Candidate>)
    ensures |r| <= |rows|
  {
    if rows == [] then []
    else
      var n := |rows| - 1;
      var before := Revalidated(codecs, policy, rows[..n]);
      match Validate(codecs, rows[n], policy)
      case Success(c) => before + [FromCache(c)]
      case Failure(_) => before
  }

  lemma {:induction false} RevalidatedMembers(codecs: map<u32, Codec>, policy: Policy, rows: seq<Announcement>, c: Candidate)
    ensures c in Revalidated(codecs, policy, rows) <==>
              exists i :: 0 <= i < |rows| && ValidatesTo(codecs, policy, rows[i], c)
  {
    if rows != [] {
      var n := |rows| - 1;
      RevalidatedMembers(codecs, policy, rows[..n], c);
      assert forall i :: 0 <= i < n ==> rows[i] == rows[..n][i];
    }
  }

  predicate ValidatesTo(codecs: map<u32, Codec>, policy: Policy, row: Announcement, c: Candidate) {
    Validate(codecs, row, policy).Success? && FromCache(Validate(codecs, row, policy).value) == c
  }

  // ----- Pruning does not change what a load returns -----

  function Pruned(table: Table, now: int): Table {
    map k | k in table && table[k].expiresAt > now :: table[k]
  }

  /** A row's signed record decodes to the identity the row is stored under. */
  ghost predicate Faithful(codecs: map<u32, Codec>, key: RowKey, row: Row) {
    forall t: u32, context ::
      t as int == key.recordType && t in codecs && Decodes(codecs, t, row.rawSignedRecord, context) ==>
        codecs[t](row.rawSignedRecord, context).value.peerId == key.peerId
  }

  predicate Decodes(codecs: map<u32, Codec>, t: u32, record: seq<byte>, context: DialContext)
    requires t in codecs
  {
    codecs[t](record, context).Success?
  }

  ghost predicate AllFaithful(codecs: map<u32, Codec>, table: Table) {
    forall k :: k in table ==> Faithful(codecs, k, table[k])
  }

  /** A table all of whose stored records were faithful is faithful. */
  lemma FaithfulHistory(codecs: map<u32, Codec>, table: Table, histories: Histories)
    requires KeepsBest(table, histories)
    requires forall k, row :: k in histories && row in histories[k] ==> Faithful(codecs, k, row)
    ensures AllFaithful(codecs, table)
  {
    hide Faithful, BestAt;
    forall k | k in table
      ensures Faithful(codecs, k, table[k])
    {
      assert IsBest(histories[k], table[k]);
      assert table[k] in histories[k];
    }
  }

  /** A revalidated row names its own key, so no two rows yield one identity. */
  lemma ValidatedIdentity(codecs: map<u32, Codec>, policy: Policy, key: RowKey, row: Row, c: Candidate)
    requires Faithful(codecs, key, row) && Checked(key, row).Success?
    requires ValidatesTo(codecs, policy, Checked(key, row).value, c)
    ensures KeyFor(key.namespace, c) == key && row.expiresAt > policy.chainTime as int
  {
    var t := key.recordType as u32;
    assert Decodes(codecs, t, row.rawSignedRecord, policy.dialContext);
  }

  ghost predicate RowYields(codecs: map<u32, Codec>, policy: Policy, table: Table, key: RowKey, c: Candidate) {
    && key in table && Checked(key, table[key]).Success?
    && ValidatesTo(codecs, policy, Checked(key, table[key]).value, c)
  }

  lemma LoadedComesFromRow(codecs: map<u32, Codec>, policy: Policy, table: Table, order: seq<RowKey>, c: Candidate)
    requires AllWellFormed(table, order)
    ensures c in Revalidated(codecs, policy, Announcements(table, order)) <==>
              exists key :: key in order && RowYields(codecs, policy, table, key, c)
  {
    hide ValidatesTo, WellFormed;
    var rows := Announcements(table, order);
    RevalidatedMembers(codecs, policy, rows, c);
    if i :| 0 <= i < |rows| && ValidatesTo(codecs, policy, rows[i], c) {
      assert order[i] in order && RowYields(codecs, policy, table, order[i], c);
    }
    if key :| key in order && RowYields(codecs, policy, table, key, c) {
      var i :| 0 <= i < |order| && order[i] == key;
      assert ValidatesTo(codecs, policy, rows[i], c);
    }
  }

  lemma PrunedRowsAreSilent(codecs: map<u32, Codec>, policy: Policy, table: Table, t: int, namespace: seq<byte>,
                            order: seq<RowKey>, pruned: seq<RowKey>)
    requires t <= policy.chainTime as int && AllFaithful(codecs, table)
    requires AllWellFormed(table, order) && AllWellFormed(Pruned(table, t), pruned)
    requires IsQueryResult(table, namespace, order) && IsQueryResult(Pruned(table, t), namespace, pruned)
    ensures SameRecords(Revalidated(codecs, policy, Announcements(table, order)),
                        Revalidated(codecs, policy, Announcements(Pruned(table, t), pruned)))
  {
    hide Faithful, ValidatesTo, WellFormed, Checked, AllWellFormed, Announcements, Revalidated;
    var a := Revalidated(codecs, policy, Announcements(table, order));
    var b := Revalidated(codecs, policy, Announcements(Pruned(table, t), pruned));
    forall c
      ensures c in a <==> c in b
    {
      LoadedComesFromRow(codecs, policy, table, order, c);
      LoadedComesFromRow(codecs, policy, Pruned(table, t), pruned, c);
      if key :| key in order && RowYields(codecs, policy, table, key, c) {
        ValidatedIdentity(codecs, policy, key, table[key], c);
        assert key in pruned && RowYields(codecs, policy, Pruned(table, t), key, c);
      }
      if key :| key in pruned && RowYields(codecs, policy, Pruned(table, t), key, c) {
        assert key in order && RowYields(codecs, policy, table, key, c);
      }
    }
  }

  lemma LoadedIdentitiesAreDistinct(codecs: map<u32, Codec>, policy: Policy, table: Table, namespace: seq<byte>, order: seq<RowKey>)
    requires AllFaithful(codecs, table) && AllWellFormed(table, order) && IsQueryResult(table, namespace, order)
    ensures DistinctPositions(Revalidated(codecs, policy, Announcements(table, order)))
  {
    hide Faithful, ValidatesTo, WellFormed, AllWellFormed, Announcements, Revalidated;
    var loaded := Revalidated(codecs, policy, Announcements(table, order));
    forall c, d | c in loaded && d in loaded && c.IdentityKey() == d.IdentityKey()
      ensures c == d
    {
      LoadedComesFromRow(codecs, policy, table, order, c);
      LoadedComesFromRow(codecs, policy, table, order, d);
      var j :| j in order && RowYields(codecs, policy, table, j, c);
      var k :| k in order && RowYields(codecs, policy, table, k, d);
      ValidatedIdentity(codecs, policy, j, table[j], c);
      ValidatedIdentity(codecs, policy, k, table[k], d);
      SameRowSameCandidate(codecs, policy, table, j, c, d);
    }
  }

  lemma SameRowSameCandidate(codecs: map<u32, Codec>, policy: Policy, table: Table, key: RowKey, c: Candidate, d: Candidate)
    requires RowYields(codecs, policy, table, key, c) && RowYields(codecs, policy, table, key, d)
    ensures c == d
  {
    hide Validate, Checked;
  }

  /** What a load may return: the ranked sample of the rows that revalidate. */
  ghost predicate IsLoaded(codecs: map<u32, Codec>, policy: Policy, cap: nat, score: Score, table: Table, order: seq<RowKey>,
                           listed: seq<Candidate>) {
    && AllWellFormed(table, order)
    && IsRankedSample(cap, score, Revalidated(codecs, policy, Announcements(table, order)), listed)
  }

  /** Pruning at `t` changes no load at or after `t`, whatever order the query returns ties in. */
  lemma PruneKeepsLoads(codecs: map<u32, Codec>, policy: Policy, cap: nat, score: Score, table: Table, t: int, namespace: seq<byte>,
                        order: seq<RowKey>, pruned: seq<RowKey>, listed: seq<Candidate>, relisted: seq<Candidate>)
    requires t <= policy.chainTime as int && AllFaithful(codecs, table)
    requires IsQueryResult(table, namespace, order) && IsQueryResult(Pruned(table, t), namespace, pruned)
    requires IsLoaded(codecs, policy, cap, score, table, order, listed)
    requires IsLoaded(codecs, policy, cap, score, Pruned(table, t), pruned, relisted)
    requires DistinctScores(score, Identities(Revalidated(codecs, policy, Announcements(table, order))))
    ensures listed == relisted
  {
    hide AllFaithful, IsQueryResult, AllWellFormed, IsRankedSample, DistinctScores, DistinctPositions, SameRecords, Revalidated, Identities,
         Announcements, Pruned;
    PrunedRowsAreSilent(codecs, policy, table, t, namespace, order, pruned);
    LoadedIdentitiesAreDistinct(codecs, policy, table, namespace, order);
    RankedSampleIgnoresOrder(cap, score, Revalidated(codecs, policy, Announcements(table, order)),
                             Revalidated(codecs, policy, Announcements(Pruned(table, t), pruned)), listed, relisted);
  }

  // ----- What a load lists, row by row -----

  /** A live row of an accepted type whose record its codec vouches for, decoding it to `c`. */
  ghost predicate GoodRow(codecs: map<u32, Codec>, types: seq<u32>, context: DialContext, now: u64, key: RowKey, row: Row, c: Candidate) {
    && WellFormed(key, row) && row.expiresAt > now as int && 0 < |row.rawSignedRecord| <= 4096
    && var t := key.recordType as u32;
       && t in types && t in codecs && codecs[t](row.rawSignedRecord, context) == Success(c)
       && c.recordType == t && |c.endpoints| <= 16
  }

  /** `listed` is the decoded record, stamped with the row's expiry and chain position. */
  ghost predicate ListedFrom(listed: Candidate, row: Row, c: Candidate) {
    && listed.recordType == c.recordType && listed.peerId == c.peerId && listed.sequence == c.sequence
    && listed.endpoints == c.endpoints && listed.rawSignedRecord == c.rawSignedRecord
    && listed.source == LocalCache && listed.expiresAt as int == row.expiresAt
    && listed.announcementBlock.Some? && listed.announcementBlock.value as int == row.block.GetOr(0)
    && listed.announcementLogIndex.Some? && listed.announcementLogIndex.value as int == row.logIndex.GetOr(0)
  }

  ghost predicate FromGoodRow(codecs: map<u32, Codec>, types: seq<u32>, context: DialContext, now: u64, namespace: seq<byte>, table: Table,
                              listed: Candidate) {
    exists key, c ::
      key in table && key.namespace == namespace && GoodRow(codecs, types, context, now, key, table[key], c) && ListedFrom(listed, table[key], c)
  }

  ghost predicate OnlyGoodRows(codecs: map<u32, Codec>, types: seq<u32>, context: DialContext, now: u64, namespace: seq<byte>, table: Table,
                               candidates: seq<Candidate>) {
    forall listed :: listed in candidates ==> FromGoodRow(codecs, types, context, now, namespace, table, listed)
  }

  /** `ids` covers the identities of the namespace's good rows and fits the cap. */
  ghost predicate IdentitiesFit(codecs: map<u32, Codec>, types: seq<u32>, context: DialContext, now: u64, namespace: seq<byte>, table: Table,
                                cap: nat, ids: set<Key>) {
    && |ids| <= cap
    && forall key, c :: key in table && key.namespace == namespace && GoodRow(codecs, types, context, now, key, table[key], c) ==>
         Key(c.recordType, c.peerId) in ids
  }

  ghost predicate ListedAsFresh(candidates: seq<Candidate>, c: Candidate) {
    exists found :: found in candidates && found.recordType == c.recordType && found.peerId == c.peerId && found.sequence >= c.sequence
  }

  /** When the identities fit the cap, every good row's peer is listed with at least its sequence. */
  ghost predicate AllGoodRows(codecs: map<u32, Codec>, types: seq<u32>, context: DialContext, now: u64, namespace: seq<byte>, table: Table,
                              cap: nat, candidates: seq<Candidate>) {
    (exists ids :: IdentitiesFit(codecs, types, context, now, namespace, table, cap, ids)) ==>
      forall key, c :: key in table && key.namespace == namespace && GoodRow(codecs, types, context, now, key, table[key], c) ==>
        ListedAsFresh(candidates, c)
  }

  /** A row revalidates exactly when it is good, and then to what it carries. */
  lemma RevalidationIsExact(codecs: map<u32, Codec>, types: seq<u32>, context: DialContext, now: u64, namespace: seq<byte>, table: Table, key: RowKey)
    requires key in table && key.namespace == namespace
    ensures var policy := Policy(namespace, types, now, 4096, 16, context);
      && (forall listed :: RowYields(codecs, policy, table, key, listed) ==>
            exists c :: GoodRow(codecs, types, context, now, key, table[key], c) && ListedFrom(listed, table[key], c))
      && (forall c :: GoodRow(codecs, types, context, now, key, table[key], c) ==>
            exists listed :: RowYields(codecs, policy, table, key, listed) && ListedFrom(listed, table[key], c))
  {
    var policy := Policy(namespace, types, now, 4096, 16, context);
    var row := table[key];
    forall listed | RowYields(codecs, policy, table, key, listed)
      ensures exists c :: GoodRow(codecs, types, context, now, key, row, c) && ListedFrom(listed, row, c)
    {
      var c := codecs[key.recordType as u32](row.rawSignedRecord, context).value;
      assert GoodRow(codecs, types, context, now, key, row, c) && ListedFrom(listed, row, c);
    }
    forall c | GoodRow(codecs, types, context, now, key, row, c)
      ensures exists listed :: RowYields(codecs, policy, table, key, listed) && ListedFrom(listed, row, c)
    {
      var listed := FromCache(Validate(codecs, Checked(key, row).value, policy).value);
      assert RowYields(codecs, policy, table, key, listed) && ListedFrom(listed, row, c);
    }
  }

  lemma RevalidatedAreGood(codecs: map<u32, Codec>, types: seq<u32>, context: DialContext, now: u64, namespace: seq<byte>, table: Table,
                           order: seq<RowKey>, listed: Candidate)
    requires AllWellFormed(table, order) && IsQueryResult(table, namespace, order)
    requires listed in Revalidated(codecs, Policy(namespace, types, now, 4096, 16, context), Announcements(table, order))
    ensures FromGoodRow(codecs, types, context, now, namespace, table, listed)
  {
    hide AllWellFormed, Announcements, Revalidated, RowYields, GoodRow, ListedFrom;
    var policy := Policy(namespace, types, now, 4096, 16, context);
    LoadedComesFromRow(codecs, policy, table, order, listed);
    var key :| key in order && RowYields(codecs, policy, table, key, listed);
    RevalidationIsExact(codecs, types, context, now, namespace, table, key);
  }

  /** Everything a load lists comes from a live row of the namespace that its codec vouches for. */
  lemma LoadedAreGood(codecs: map<u32, Codec>, types: seq<u32>, context: DialContext, now: u64, namespace: seq<byte>, table: Table,
                      order: seq<RowKey>, cap: nat, score: Score, candidates: seq<Candidate>)
    requires IsQueryResult(table, namespace, order)
    requires IsLoaded(codecs, Policy(namespace, types, now, 4096, 16, context), cap, score, table, order, candidates)
    ensures OnlyGoodRows(codecs, types, context, now, namespace, table, candidates)
  {
    hide AllWellFormed, Announcements, Revalidated, IsRankedSample, IsQueryResult, FromGoodRow;
    var policy := Policy(namespace, types, now, 4096, 16, context);
    forall listed | listed in candidates
      ensures FromGoodRow(codecs, types, context, now, namespace, table, listed)
    {
      ListedWasSeen(cap, score, Revalidated(codecs, policy, Announcements(table, order)), candidates, listed);
      RevalidatedAreGood(codecs, types, context, now, namespace, table, order, listed);
    }
  }

  lemma RevalidatedFit(codecs: map<u32, Codec>, types: seq<u32>, context: DialContext, now: u64, namespace: seq<byte>, table: Table,
                       order: seq<RowKey>, cap: nat, ids: set<Key>)
    requires AllWellFormed(table, order) && IsQueryResult(table, namespace, order)
    requires IdentitiesFit(codecs, types, context, now, namespace, table, cap, ids)
    ensures |Identities(Revalidated(codecs, Policy(namespace, types, now, 4096, 16, context), Announcements(table, order)))| <= cap
  {
    hide AllWellFormed, Announcements, Revalidated, IsQueryResult, GoodRow;
    var seen := Revalidated(codecs, Policy(namespace, types, now, 4096, 16, context), Announcements(table, order));
    forall x | x in seen
      ensures x.IdentityKey() in ids
    {
      RevalidatedAreGood(codecs, types, context, now, namespace, table, order, x);
    }
    SubsetIsSmaller(Identities(seen), ids);
  }

  lemma GoodRowIsFound(codecs: map<u32, Codec>, types: seq<u32>, context: DialContext, now: u64, namespace: seq<byte>, table: Table,
                       order: seq<RowKey>, cap: nat, score: Score, candidates: seq<Candidate>, ids: set<Key>, key: RowKey, c: Candidate)
    requires IsQueryResult(table, namespace, order)
    requires IsLoaded(codecs, Policy(namespace, types, now, 4096, 16, context), cap, score, table, order, candidates)
    requires IdentitiesFit(codecs, types, context, now, namespace, table, cap, ids)
    requires key in table && key.namespace == namespace && GoodRow(codecs, types, context, now, key, table[key], c)
    ensures ListedAsFresh(candidates, c)
  {
    hide AllWellFormed, Announcements, Revalidated, IsRankedSample, IdentitiesFit, GoodRow, RowYields;
    var policy := Policy(namespace, types, now, 4096, 16, context);
    RevalidationIsExact(codecs, types, context, now, namespace, table, key);
    var listed :| RowYields(codecs, policy, table, key, listed) && ListedFrom(listed, table[key], c);
    LoadedComesFromRow(codecs, policy, table, order, listed);
    RevalidatedFit(codecs, types, context, now, namespace, table, order, cap, ids);
    var found := NothingFreshIsLost(cap, score, Revalidated(codecs, policy, Announcements(table, order)), candidates, listed);
  }

  /** Every good row of the namespace is found by a load whose cap its identities fit. */
  lemma GoodRowsAreFound(codecs: map<u32, Codec>, types: seq<u32>, context: DialContext, now: u64, namespace: seq<byte>, table: Table,
                         order: seq<RowKey>, cap: nat, score: Score, candidates: seq<Candidate>)
    requires IsQueryResult(table, namespace, order)
    requires IsLoaded(codecs, Policy(namespace, types, now, 4096, 16, context), cap, score, table, order, candidates)
    ensures AllGoodRows(codecs, types, context, now, namespace, table, cap, candidates)
  {
    hide IsLoaded, IsQueryResult, IdentitiesFit, GoodRow, ListedAsFresh;
    if ids :| IdentitiesFit(codecs, types, context, now, namespace, table, cap, ids) {
      forall key, c | key in table && key.namespace == namespace && GoodRow(codecs, types, context, now, key, table[key], c)
        ensures ListedAsFresh(candidates, c)
      {
        GoodRowIsFound(codecs, types, context, now, namespace, table, order, cap, score, candidates, ids, key, c);
      }
    }
  }

  // ----- The cache -----

  class SqlitePeerCache {
    const codecs: map<u32, Codec>
    const acceptedRecordTypes: seq<u32>
    const dialContext: DialContext
    const maxCandidates: nat
    const hash: seq<byte> -> seq<byte>
    var table: Table
    /** What has been stored under each key since it was last pruned. */
    ghost var histories: Histories

    ghost predicate Valid()
      reads this
    {
      maxCandidates >= 1 && KeepsBest(table, histories) && forall k :: k in table ==> WellFormed(k, table[k])
    }

    constructor (codecs: map<u32, Codec>, acceptedRecordTypes: seq<u32>, dialContext: DialContext, maxCandidates: nat,
                 hash: seq<byte> -> seq<byte>)
      ensures Valid() && table == map[] && histories == map[]
      ensures this.codecs == codecs && this.acceptedRecordTypes == acceptedRecordTypes && this.dialContext == dialContext
      ensures this.maxCandidates == Max(maxCandidates, 1) && this.hash == hash
    {
      this.codecs, this.acceptedRecordTypes, this.dialContext, this.hash := codecs, acceptedRecordTypes, dialContext, hash;
      this.maxCandidates := if maxCandidates >= 1 then maxCandidates else 1;
      table, histories := map[], map[];
    }

    /** One transaction: all of the batch, or nothing when any number is out of range. */
    method Store(namespace: seq<byte>, batch: seq<Candidate>) returns (r: Result<(), CacheError>)
      requires Valid()
      modifies this
      ensures Valid()
      ensures r.Success? <==> forall c :: c in batch ==> InRange(c)
      ensures r.Success? ==> histories == Recorded(old(histories), namespace, batch)
      ensures forall other :: KeepsBest(other, histories) ==> other == table
      ensures r.Failure? ==> table == old(table) && histories == old(histories)
      ensures r.Failure? ==> exists i :: 0 <= i < |batch| && FirstOverflow(batch, i, r.error)
    {
      hide KeepsBest, Upsert, History, KeyFor;
      var transaction := table;
      ghost var recorded := histories;
      var i := 0;
      while i < |batch|
        invariant 0 <= i <= |batch| && forall j :: 0 <= j < i ==> InRange(batch[j])
        invariant recorded == Recorded(histories, namespace, batch[..i])
        invariant KeepsBest(transaction, recorded)
        invariant forall k :: k in transaction ==> WellFormed(k, transaction[k])
        invariant table == old(table) && histories == old(histories)
      {
        match ToRow(batch[i]) {
          case Failure(error) =>
            assert FirstOverflow(batch, i, error) && batch[i] in batch;
            OnlyTable(table, histories);
            return Failure(error);
          case Success(row) =>
            var key := KeyFor(namespace, batch[i]);
            UpsertKeepsBest(transaction, recorded, key, row);
            UpsertKeepsWellFormed(transaction, namespace, batch[i]);
            RecordedStep(histories, namespace, batch, i);
            recorded := recorded[key := History(recorded, key) + [row]];
            transaction := Upsert(transaction, key, row);
            i := i + 1;
        }
      }
      assert batch[..i] == batch;
      table := transaction;
      histories := recorded;
      OnlyTable(table, histories);
      return Success(());
    }

    /** Deletes expired rows and reports how many remain. */
    method Prune(now: u64) returns (r: Result<nat, CacheError>)
      requires Valid()
      modifies this
      ensures Valid()
      ensures r == if now <= I64_MAX then Success(|table|) else Failure(NumericOverflow("time"))
      ensures now > I64_MAX ==> table == old(table)
      ensures now <= I64_MAX ==>
        forall k :: if k in old(table) && old(table)[k].expiresAt > now as int then k in table && table[k] == old(table)[k] else k !in table
      ensures forall k :: k in histories ==> k in old(histories) && histories[k] == old(histories)[k]
    {
      var time := ToI64(now, "time");
      if time.Failure? {
        return Failure(time.error);
      }
      ghost var kept := Pruned(table, time.value);
      table := map k | k in table && table[k].expiresAt > time.value :: table[k];
      histories := map k | k in histories && k in kept :: histories[k];
      assert table.Keys == histories.Keys;
      return Success(|table|);
    }

    function PolicyAt(namespace: seq<byte>, now: u64): Policy {
      Policy(namespace, acceptedRecordTypes, now, Beacon.MAX_RECORD_BYTES as nat, MAX_ENDPOINTS, dialContext)
    }

    /** `order` is the query's answer; every row is checked, then cryptographically revalidated. */
    method Load(namespace: seq<byte>, now: u64, order: seq<RowKey>) returns (r: Result<seq<Candidate>, CacheError>)
      requires maxCandidates >= 1 && IsQueryResult(table, namespace, order)
      ensures r.Success? <==> AllWellFormed(table, order)
      ensures r.Success? ==>
                && IsLoaded(codecs, PolicyAt(namespace, now), maxCandidates, KeyedScore(hash, namespace), table, order, r.value)
                && OnlyGoodRows(codecs, acceptedRecordTypes, dialContext, now, namespace, table, r.value)
                && AllGoodRows(codecs, acceptedRecordTypes, dialContext, now, namespace, table, maxCandidates, r.value)
      ensures r.Failure? ==> exists k :: k in order && Checked(k, table[k]) == Failure(r.error)
    {
      hide CandidateStore.Valid, Validate, IsQueryResult, IsRankedSample, IsSample, IsRanking, Revalidated, WellFormed, KeyedScore,
           OnlyGoodRows, AllGoodRows;
      QueriedRowsExist(table, namespace, order);
      var loaded := LoadRows(order);
      if loaded.Failure? {
        return Failure(loaded.error);
      }
      var rows := loaded.value;
      var policy := PolicyAt(namespace, now);
      var store := new CandidateStore(maxCandidates, KeyedScore(hash, namespace));
      var i := 0;
      RevalidatedNothing(codecs, policy);
      while i < |rows|
        invariant 0 <= i <= |rows| && store.Valid() && fresh(store)
        invariant store.maxCandidates == maxCandidates && store.score == KeyedScore(hash, namespace)
        invariant store.seen == Revalidated(codecs, policy, rows[..i])
      {
        RevalidatedStep(codecs, policy, rows, i);
        match Validate(codecs, rows[i], policy) {
          case Success(candidate) =>
            var _ := store.Insert(FromCache(candidate));
          case Failure(_) =>
        }
        i := i + 1;
      }
      assert rows[..i] == rows;
      var listed := store.Ranked();
      LoadedAreGood(codecs, acceptedRecordTypes, dialContext, now, namespace, table, order, maxCandidates, store.score, listed);
      GoodRowsAreFound(codecs, acceptedRecordTypes, dialContext, now, namespace, table, order, maxCandidates, store.score, listed);
      return Success(listed);
    }

    method LoadRows(order: seq<RowKey>) returns (r: Result<seq<Announcement>, CacheError>)
      requires forall k :: k in order ==> k in table
      ensures r.Success? <==> AllWellFormed(table, order)
      ensures r.Success? ==> r.value == Announcements(table, order)
      ensures r.Failure? ==> exists k :: k in order && Checked(k, table[k]) == Failure(r.error)
    {
      hide WellFormed;
      var rows := [];
      var i := 0;
      while i < |order|
        invariant 0 <= i <= |order| && |rows| == i
        invariant forall j :: 0 <= j < i ==> Checked(order[j], table[order[j]]) == Success(rows[j])
      {
        assert order[i] in order;
        match Checked(order[i], table[order[i]]) {
          case Failure(error) => return Failure(error);
          case Success(row) => rows := rows + [row];
        }
        i := i + 1;
      }
      return Success(rows);
    }
  }

  lemma OnlyTable(table: Table, histories: Histories)
    requires KeepsBest(table, histories)
    ensures forall other :: KeepsBest(other, histories) ==> other == table
  {
    hide KeepsBest;
    forall other | KeepsBest(other, histories)
      ensures other == table
    {
      TableIsDetermined(other, table, histories);
    }
  }

  /** The first candidate of the batch that does not fit decides the error. */
  ghost predicate FirstOverflow(batch: seq<Candidate>, i: nat, error: CacheError)
    requires i < |batch|
  {
    ToRow(batch[i]) == Failure(error) && forall j :: 0 <= j < i ==> InRange(batch[j])
  }

  lemma UpsertKeepsWellFormed(table: Table, namespace: seq<byte>, c: Candidate)
    requires InRange(c) && forall k :: k in table ==> WellFormed(k, table[k])
    ensures forall k :: k in Upsert(table, KeyFor(namespace, c), ToRow(c).value) ==>
              WellFormed(k, Upsert(table, KeyFor(namespace, c), ToRow(c).value)[k])
  {
  }

  lemma RecordedStep(histories: Histories, namespace: seq<byte>, batch: seq<Candidate>, i: nat)
    requires i < |batch| && forall c :: c in batch[..i + 1] ==> InRange(c)
    requires forall c :: c in batch[..i] ==> InRange(c)
    ensures var before := Recorded(histories, namespace, batch[..i]);
      var key := KeyFor(namespace, batch[i]);
      batch[i] in batch[..i + 1]
      && Recorded(histories, namespace, batch[..i + 1]) == before[key := History(before, key) + [ToRow(batch[i]).value]]
  {
    assert batch[..i + 1][..i] == batch[..i];
  }

  lemma QueriedRowsExist(table: Table, namespace: seq<byte>, order: seq<RowKey>)
    requires IsQueryResult(table, namespace, order)
    ensures forall k :: k in order ==> k in table
  {
  }

  lemma RevalidatedNothing(codecs: map<u32, Codec>, policy: Policy)
    ensures Revalidated(codecs, policy, []) == []
  {
  }

  lemma RevalidatedStep(codecs: map<u32, Codec>, policy: Policy, rows: seq<Announcement>, i: nat)
    requires i < |rows|
    ensures Revalidated(codecs, policy, rows[..i + 1]) ==
            Revalidated(codecs, policy, rows[..i])
            + (match Validate(codecs, rows[i], policy) case Success(c) => [FromCache(c)] case Failure(_) => [])
  {
    assert rows[..i + 1][..i] == rows[..i];
  }
}
