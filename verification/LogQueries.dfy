/** The adaptive sequence of log queries both registry scanners make
    (crates/resurrect-ethereum/src/scanner.rs and packages/ts/src/scanner.ts). */
module LogQueries {
  import opened Common
  import opened RegistryChain

  /** One log query over an inclusive block range. */
  datatype Query = Query(from: u64, to: u64)

  /** The window to cover, the provider, and the initial and the smallest chunk size. */
  datatype Window = Window(provider: Provider, start: u64, head: u64, initial: nat, minimum: nat) {
    predicate Valid() {
      start <= head && initial >= 1 && minimum >= 1
    }
  }

  /** What the provider did with the last query of a history. */
  function LastVerdict(w: Window, asked: seq<Query>): Verdict
    requires asked != []
  {
    var n := |asked| - 1;
    w.provider.logVerdict(n, asked[n].from, asked[n].to)
  }

  predicate RangeRefused(v: Verdict) {
    v.Refuse? && v.error.RangeLimit?
  }

  /** The chunk size after a history: halved, down to the minimum, by each range refusal. */
  function Chunk(w: Window, asked: seq<Query>): nat {
    if asked == [] then w.initial
    else
      var before := Chunk(w, asked[..|asked| - 1]);
      if RangeRefused(LastVerdict(w, asked)) then Max(before / 2, w.minimum) else before
  }

  /** The first block that no answer covers yet. */
  function Next(w: Window, asked: seq<Query>): nat {
    if asked == [] then w.start as nat
    else if LastVerdict(w, asked).Answer? then asked[|asked| - 1].to as nat + 1
    else Next(w, asked[..|asked| - 1])
  }

  /** The answered queries, in order. */
  function Answered(w: Window, asked: seq<Query>): seq<Query> {
    if asked == [] then []
    else
      var before := Answered(w, asked[..|asked| - 1]);
      if LastVerdict(w, asked).Answer? then before + [asked[|asked| - 1]] else before
  }

  /** The last query was answered, or refused in a way that a smaller chunk may still rescue. */
  ghost predicate MayContinue(w: Window, asked: seq<Query>) {
    asked == [] || LastVerdict(w, asked).Answer? || (RangeRefused(LastVerdict(w, asked)) && Chunk(w, asked[..|asked| - 1]) > w.minimum)
  }

  /** The query to make after a history that may continue and has blocks left. */
  ghost predicate Follows(w: Window, asked: seq<Query>, q: Query) {
    && MayContinue(w, asked)
    && q.from as nat == Next(w, asked) <= w.head as nat
    && q.to as nat == Min(Next(w, asked) + Chunk(w, asked) - 1, w.head as int)
  }

  /** Each query was the one to make at its time. */
  ghost predicate History(w: Window, asked: seq<Query>) {
    asked == [] || (History(w, asked[..|asked| - 1]) && Follows(w, asked[..|asked| - 1], asked[|asked| - 1]))
  }

  /** The last query of the history failed, and no smaller chunk was left to try. */
  ghost predicate Stopped(w: Window, asked: seq<Query>, error: ProviderError) {
    History(w, asked) && asked != [] && LastVerdict(w, asked) == Refuse(error) && !MayContinue(w, asked)
  }

  /** The ranges follow one another without gap or overlap, from `from` up to (not including) `next`. */
  ghost predicate Tiles(ranges: seq<Query>, from: nat, next: nat) {
    if ranges == [] then from == next
    else
      var n := |ranges| - 1;
      && ranges[n].from <= ranges[n].to && ranges[n].to as nat + 1 == next
      && Tiles(ranges[..n], from, ranges[n].from as nat)
  }

  /** Every halving so far was of a chunk above the minimum. */
  ghost predicate ReductionBudget(chunk: nat, minimum: nat, initial: nat, reductions: nat) {
    && chunk >= 1 && minimum >= 1
    && (reductions >= 1 ==> Pow2(reductions - 1) * (minimum + 1) <= initial)
    && (chunk > minimum ==> chunk * Pow2(reductions) <= initial)
  }

  /** No reduction shrank the chunk faster than halving does. */
  ghost predicate HalvedAtMost(chunk: nat, initial: nat, reductions: nat) {
    initial < (chunk + 1) * Pow2(reductions)
  }

  lemma HalvingAgain(chunk: nat, smaller: nat, initial: nat, reductions: nat)
    requires HalvedAtMost(chunk, initial, reductions) && smaller >= chunk / 2
    ensures HalvedAtMost(smaller, initial, reductions + 1)
  {
    var p := Pow2(reductions);
    assert Pow2(reductions + 1) == 2 * p;
    hide Pow2;
    ProductGrows(chunk + 1, 2 * (smaller + 1), p);
    assert 2 * (smaller + 1) * p == (smaller + 1) * (2 * p);
  }

  lemma ReduceChunk(chunk: nat, minimum: nat, initial: nat, reductions: nat)
    requires ReductionBudget(chunk, minimum, initial, reductions) && chunk > minimum
    ensures Max(chunk / 2, minimum) < chunk && ReductionBudget(Max(chunk / 2, minimum), minimum, initial, reductions + 1)
  {
    var p := Pow2(reductions);
    assert Pow2(reductions + 1) == 2 * p;
    hide Pow2;
    ProductGrows(minimum + 1, chunk, p);
    assert p * (minimum + 1) == (minimum + 1) * p;
    HalfTimesDouble(chunk, p);
  }

  lemma HalfTimesDouble(a: nat, p: nat)
    ensures (a / 2) * (2 * p) <= a * p
  {
    var half := a / 2;
    assert half * (2 * p) == (2 * half) * p;
    ProductGrows(2 * half, a, p);
  }

  lemma AskedOne(w: Window, asked: seq<Query>, q: Query)
    ensures History(w, asked + [q]) <==> History(w, asked) && Follows(w, asked, q)
    ensures LastVerdict(w, asked + [q]) == w.provider.logVerdict(|asked|, q.from, q.to)
    ensures MayContinue(w, asked + [q]) <==>
              LastVerdict(w, asked + [q]).Answer? || (RangeRefused(LastVerdict(w, asked + [q])) && Chunk(w, asked) > w.minimum)
  {
    assert (asked + [q])[..|asked|] == asked;
  }

  lemma AskedAnswered(w: Window, asked: seq<Query>, q: Query)
    requires w.provider.logVerdict(|asked|, q.from, q.to).Answer?
    ensures Chunk(w, asked + [q]) == Chunk(w, asked) && Next(w, asked + [q]) == q.to as nat + 1
    ensures Answered(w, asked + [q]) == Answered(w, asked) + [q]
  {
    assert (asked + [q])[..|asked|] == asked;
  }

  lemma AskedRefused(w: Window, asked: seq<Query>, q: Query)
    requires RangeRefused(w.provider.logVerdict(|asked|, q.from, q.to))
    ensures Chunk(w, asked + [q]) == Max(Chunk(w, asked) / 2, w.minimum) && Next(w, asked + [q]) == Next(w, asked)
    ensures Answered(w, asked + [q]) == Answered(w, asked)
  {
    assert (asked + [q])[..|asked|] == asked;
  }

  /** A history in good standing: what has been answered tiles the window so far, in order and without
      gap, and the reductions have not used up the budget. */
  ghost predicate Covered(w: Window, asked: seq<Query>) {
    && w.start as nat <= Next(w, asked) <= w.head as nat + 1
    && Tiles(Answered(w, asked), w.start as nat, Next(w, asked))
    && |Answered(w, asked)| <= |asked|
    && ReductionBudget(Chunk(w, asked), w.minimum, w.initial, |asked| - |Answered(w, asked)|)
    && HalvedAtMost(Chunk(w, asked), w.initial, |asked| - |Answered(w, asked)|)
  }

  lemma AnswerCovers(w: Window, asked: seq<Query>, q: Query)
    requires w.Valid() && Covered(w, asked) && Follows(w, asked, q)
    requires w.provider.logVerdict(|asked|, q.from, q.to).Answer?
    ensures Covered(w, asked + [q])
  {
    hide Chunk, Next, Answered, ReductionBudget, HalvedAtMost, MayContinue, Pow2;
    AskedAnswered(w, asked, q);
    BudgetHasChunk(w, asked);
    var ranges := Answered(w, asked) + [q];
    assert ranges[..|ranges| - 1] == Answered(w, asked);
  }

  lemma BudgetHasChunk(w: Window, asked: seq<Query>)
    requires Covered(w, asked)
    ensures Chunk(w, asked) >= 1
  {
  }

  lemma RefusalCovers(w: Window, asked: seq<Query>, q: Query)
    requires w.Valid() && Covered(w, asked) && Chunk(w, asked) > w.minimum
    requires RangeRefused(w.provider.logVerdict(|asked|, q.from, q.to))
    ensures Covered(w, asked + [q]) && Chunk(w, asked + [q]) < Chunk(w, asked)
  {
    hide Chunk, Next, Answered, ReductionBudget, HalvedAtMost, Tiles, Pow2;
    AskedRefused(w, asked, q);
    HalvingAgain(Chunk(w, asked), Max(Chunk(w, asked) / 2, w.minimum), w.initial, |asked| - |Answered(w, asked)|);
    ReduceChunk(Chunk(w, asked), w.minimum, w.initial, |asked| - |Answered(w, asked)|);
  }

  lemma NothingAsked(w: Window)
    requires w.Valid()
    ensures Standing(w, []) && Answered(w, []) == [] && Next(w, []) == w.start as nat && Chunk(w, []) == w.initial
  {
  }

  /** A history that can go on: each query was the one to make, and the answers cover the window so far. */
  ghost predicate Standing(w: Window, asked: seq<Query>) {
    History(w, asked) && MayContinue(w, asked) && Covered(w, asked)
  }

  /** A standing history as a scan loop sees it: the next block, the chunk size, the reductions so far. */
  ghost predicate InStep(w: Window, asked: seq<Query>, next: nat, chunk: nat, reductions: nat) {
    && w.Valid() && Standing(w, asked)
    && next == Next(w, asked) && w.start as nat <= next <= w.head as nat + 1
    && chunk == Chunk(w, asked) && chunk >= 1
    && |asked| == |Answered(w, asked)| + reductions
  }

  /** The loop's next query. */
  ghost predicate IsNextQuery(w: Window, q: Query, next: nat, chunk: nat) {
    q.from as nat == next <= w.head as nat && q.to as int == Min(next + chunk - 1, w.head as int)
  }

  lemma StepBegins(w: Window)
    requires w.Valid()
    ensures InStep(w, [], w.start as nat, w.initial, 0)
  {
    NothingAsked(w);
  }

  lemma StepFollows(w: Window, asked: seq<Query>, next: nat, chunk: nat, reductions: nat, q: Query)
    requires InStep(w, asked, next, chunk, reductions) && IsNextQuery(w, q, next, chunk)
    ensures Follows(w, asked, q) && q.from <= q.to <= w.head
  {
    hide History, Next, Chunk, MayContinue, Answered;
  }

  lemma StepAnswered(w: Window, asked: seq<Query>, next: nat, chunk: nat, reductions: nat, q: Query)
    requires InStep(w, asked, next, chunk, reductions) && IsNextQuery(w, q, next, chunk)
    requires w.provider.logVerdict(|asked|, q.from, q.to).Answer?
    ensures InStep(w, asked + [q], q.to as nat + 1, chunk, reductions)
  {
    StepFollows(w, asked, next, chunk, reductions, q);
    hide History, Follows, MayContinue, Covered, Chunk, Next, Answered;
    AskedOne(w, asked, q);
    AskedAnswered(w, asked, q);
    AnswerCovers(w, asked, q);
  }

  lemma StepRefused(w: Window, asked: seq<Query>, next: nat, chunk: nat, reductions: nat, q: Query)
    requires InStep(w, asked, next, chunk, reductions) && IsNextQuery(w, q, next, chunk) && chunk > w.minimum
    requires RangeRefused(w.provider.logVerdict(|asked|, q.from, q.to))
    ensures InStep(w, asked + [q], next, Max(chunk / 2, w.minimum), reductions + 1) && Max(chunk / 2, w.minimum) < chunk
  {
    StepFollows(w, asked, next, chunk, reductions, q);
    hide History, Follows, MayContinue, Covered, Chunk, Next, Answered;
    AskedOne(w, asked, q);
    AskedRefused(w, asked, q);
    RefusalCovers(w, asked, q);
  }

  lemma StepStopped(w: Window, asked: seq<Query>, next: nat, chunk: nat, reductions: nat, q: Query, error: ProviderError)
    requires InStep(w, asked, next, chunk, reductions) && IsNextQuery(w, q, next, chunk)
    requires w.provider.logVerdict(|asked|, q.from, q.to) == Refuse(error) && !(error.RangeLimit? && chunk > w.minimum)
    ensures Stopped(w, asked + [q], error)
  {
    StepFollows(w, asked, next, chunk, reductions, q);
    hide History, Follows, MayContinue, Covered, Chunk, Next, Answered;
    AskedOne(w, asked, q);
  }

  /** How a scan that made `reductions` reductions covered the blocks before `next`. */
  ghost predicate CoveredBy(w: Window, asked: seq<Query>, next: nat, reductions: nat) {
    && Standing(w, asked) && next == Next(w, asked) && Tiles(Answered(w, asked), w.start as nat, next)
    && |asked| == |Answered(w, asked)| + reductions
    && (reductions >= 1 ==> Pow2(reductions - 1) * (w.minimum + 1) <= w.initial)
    && (asked != [] ==> FirstAsks(w, asked[0]))
  }

  /** The first query asks for a whole initial chunk, or for what there is. */
  ghost predicate FirstAsks(w: Window, q: Query) {
    q.from == w.start && q.to as int == Min(w.start as int + w.initial - 1, w.head as int)
  }

  lemma {:induction false} FirstQuery(w: Window, asked: seq<Query>)
    requires History(w, asked) && asked != []
    ensures FirstAsks(w, asked[0])
  {
    if |asked| > 1 {
      FirstQuery(w, asked[..|asked| - 1]);
    } else {
      assert asked[..0] == [];
    }
  }

  /** A scan that stops was refused inside the window; if for its range, then at the smallest chunk. */
  lemma StoppedInside(w: Window, asked: seq<Query>, error: ProviderError)
    requires w.Valid() && Stopped(w, asked, error)
    ensures var last := asked[|asked| - 1];
      && FirstAsks(w, asked[0]) && w.start <= last.from <= last.to <= w.head
      && (error.RangeLimit? ==> last.to as int - last.from as int < w.minimum)
  {
    FirstQuery(w, asked);
    var before, last := asked[..|asked| - 1], asked[|asked| - 1];
    HistoryCovers(w, before);
    hide History, Next, Chunk, Answered, Tiles, ReductionBudget, HalvedAtMost, Pow2;
    ChunkIsPositive(w, before);
  }

  lemma ChunkIsPositive(w: Window, asked: seq<Query>)
    requires Standing(w, asked)
    ensures Chunk(w, asked) >= 1 && w.start as nat <= Next(w, asked)
  {
  }

  lemma StepCovers(w: Window, asked: seq<Query>, next: nat, chunk: nat, reductions: nat)
    requires InStep(w, asked, next, chunk, reductions)
    ensures CoveredBy(w, asked, next, reductions)
  {
    if asked != [] {
      FirstQuery(w, asked);
    }
    hide History, MayContinue, Chunk, Next, Answered, Tiles, Pow2, FirstAsks;
  }

  /** Whatever the provider refuses, the answered queries of every history that may continue tile the
      window so far, and r reductions satisfy 2^(r-1) * (minimum + 1) <= initial. */
  lemma {:induction false} HistoryCovers(w: Window, asked: seq<Query>)
    requires w.Valid() && History(w, asked) && MayContinue(w, asked)
    ensures Standing(w, asked)
  {
    hide Covered, Chunk, Next, Answered;
    if asked == [] {
      NothingAsked(w);
    } else {
      var before, q := asked[..|asked| - 1], asked[|asked| - 1];
      assert asked == before + [q];
      HistoryCovers(w, before);
      if LastVerdict(w, asked).Answer? {
        AnswerCovers(w, before, q);
      } else {
        RefusalCovers(w, before, q);
      }
    }
  }

  /** No two histories of the same length differ: the provider's verdicts decide every query. */
  lemma {:induction false} HistoryIsDetermined(w: Window, a: seq<Query>, b: seq<Query>)
    requires History(w, a) && History(w, b) && |a| == |b|
    ensures a == b
  {
    hide Next, Chunk, MayContinue;
    if a != [] {
      var n := |a| - 1;
      HistoryIsDetermined(w, a[..n], b[..n]);
      assert a == a[..n] + [a[n]] && b == b[..n] + [b[n]];
    }
  }
}
