/** The browser scanner's archive-free block window (packages/ts/src/scanner.ts). */
module BrowserWindow {
  import opened Common
  import opened Candidates
  import opened Validation
  import opened RegistryChain
  import Beacon

  const ETHEREUM_MAINNET_MAX_BLOCKS_PER_TTL: nat := 650_000
  const ETHEREUM_SLOT_SECONDS: nat := 12

  function ConfirmedNumber(latest: nat, confirmations: nat): nat {
    if latest > confirmations then latest - confirmations else 0
  }

  function LookbackStart(deployment: nat, head: nat, lookback: nat): nat {
    var earliest := if head + 1 > lookback then head - lookback + 1 else 0;
    if deployment > earliest then deployment else earliest
  }

  /** The lookback counts blocks up to and including the head, as far back as the deployment. */
  lemma LookbackSpan(deployment: nat, head: nat, lookback: nat)
    requires deployment <= head && lookback >= 1
    ensures LookbackStart(deployment, head, lookback) <= head
    ensures head + 1 - LookbackStart(deployment, head, lookback) == Min(lookback, head + 1 - deployment)
  {
  }

  /** The head lies exactly the confirmations below the latest block, or at the first block. */
  lemma ConfirmationsAreDeducted(latest: nat, confirmations: nat)
    ensures latest >= confirmations ==> ConfirmedNumber(latest, confirmations) + confirmations == latest
    ensures latest < confirmations ==> ConfirmedNumber(latest, confirmations) == 0
  {
  }

  ghost predicate SpacedAt(chain: Chain, spacing: nat, b: nat) {
    chain.timestamp(b) as nat + spacing <= chain.timestamp(b + 1) as nat
  }

  /** Up to the tip, consecutive blocks are at least `spacing` seconds apart. */
  ghost predicate SpacedBy(chain: Chain, spacing: nat) {
    forall b: nat :: b < chain.tip as nat ==> SpacedAt(chain, spacing, b)
  }

  lemma {:induction false} SpacingAddsUp(chain: Chain, spacing: nat, b: nat, n: nat)
    requires SpacedBy(chain, spacing) && b + n <= chain.tip as nat
    ensures chain.timestamp(b) as nat + n * spacing <= chain.timestamp(b + n) as nat
  {
    if n > 0 {
      SpacingAddsUp(chain, spacing, b, n - 1);
      assert n * spacing == (n - 1) * spacing + spacing;
      assert SpacedAt(chain, spacing, b + n - 1);
      assert b + n - 1 + 1 == b + n;
    }
  }

  /** No log below the window is still valid at the latest block's clock. */
  lemma LogsBelowWindowAreExpired(chain: Chain, spacing: nat, lookback: nat, deployment: nat, latest: nat, confirmations: nat,
                                  b: nat, a: Announcement)
    requires SpacedBy(chain, spacing) && chain.FromBeacon() && latest <= chain.tip as nat
    requires lookback >= 1 && lookback * spacing >= Beacon.MAX_TTL as nat
    requires deployment <= b < LookbackStart(deployment, ConfirmedNumber(latest, confirmations), lookback) && a in chain.logsOf(b)
    ensures a.validUntil <= chain.timestamp(latest)
  {
    var n := latest - b;
    assert n >= lookback;
    SpacingAddsUp(chain, spacing, b, n);
    ProductGrows(lookback, n, spacing);
    EmittedLifetime(a, chain.timestamp(b));
  }

  /** A lookback that covers the maximum lifetime loses nothing: scanning the window accepts exactly
      what scanning every block since deployment would, judged at the latest block's clock. */
  lemma LookbackWindowIsComplete(codecs: map<u32, Codec>, policy: Policy, chain: Chain, spacing: nat, lookback: nat,
                                 deployment: nat, latest: nat, confirmations: nat)
    requires SpacedBy(chain, spacing) && chain.FromBeacon() && latest <= chain.tip as nat
    requires lookback >= 1 && lookback * spacing >= Beacon.MAX_TTL as nat
    requires deployment <= ConfirmedNumber(latest, confirmations)
    requires policy.chainTime == chain.timestamp(latest)
    ensures var head := ConfirmedNumber(latest, confirmations);
      var start := LookbackStart(deployment, head, lookback);
      start <= head && Accepted(codecs, policy, chain.Logs(start, head + 1)) == Accepted(codecs, policy, chain.Logs(deployment, head + 1))
  {
    hide Accepted, Chain.Logs, SpacedBy;
    var head := ConfirmedNumber(latest, confirmations);
    var start := LookbackStart(deployment, head, lookback);
    var skipped := chain.Logs(deployment, start);
    forall i | 0 <= i < |skipped|
      ensures skipped[i].validUntil <= policy.chainTime
    {
      var b := chain.LogsComeFromBlocks(deployment, start, skipped[i]);
      LogsBelowWindowAreExpired(chain, spacing, lookback, deployment, latest, confirmations, b, skipped[i]);
    }
    AcceptedNone(codecs, policy, skipped);
    chain.LogsSplit(deployment, start, head + 1);
    AcceptedConcat(codecs, policy, skipped, chain.Logs(start, head + 1));
  }

  /** The Ethereum profile: 650,000 blocks cover the maximum lifetime of 12-second slots. */
  lemma EthereumProfileIsComplete(codecs: map<u32, Codec>, policy: Policy, chain: Chain, deployment: nat, latest: nat, confirmations: nat)
    requires SpacedBy(chain, ETHEREUM_SLOT_SECONDS) && chain.FromBeacon() && latest <= chain.tip as nat
    requires deployment <= ConfirmedNumber(latest, confirmations) && policy.chainTime == chain.timestamp(latest)
    ensures var head := ConfirmedNumber(latest, confirmations);
      var start := LookbackStart(deployment, head, ETHEREUM_MAINNET_MAX_BLOCKS_PER_TTL);
      Accepted(codecs, policy, chain.Logs(start, head + 1)) == Accepted(codecs, policy, chain.Logs(deployment, head + 1))
  {
    LookbackWindowIsComplete(codecs, policy, chain, ETHEREUM_SLOT_SECONDS, ETHEREUM_MAINNET_MAX_BLOCKS_PER_TTL, deployment, latest, confirmations);
  }

  /** Blocks exactly `spacing` apart, as long as the maximum lifetime has not passed. */
  function SlowClock(spacing: nat, n: nat): u64 {
    var t := n * spacing;
    if t <= 0 then 0 else if t < Beacon.MAX_TTL as int then t as u64 else Beacon.MAX_TTL as u64 - 1
  }

  /** Any shorter lookback is unsafe: some correctly spaced beacon chain holds an announcement at or
      below the confirmed head that is still valid at the latest clock and outside the window. */
  lemma ShorterLookbackMisses(spacing: nat, lookback: nat) returns (chain: Chain, a: Announcement)
    requires lookback >= 1 && lookback * spacing < Beacon.MAX_TTL as nat && lookback <= U64_MAX as nat
    ensures SpacedBy(chain, spacing) && chain.FromBeacon() && chain.tip as nat == lookback
    ensures a in chain.logsOf(0) && a.validUntil > chain.timestamp(lookback)
    ensures a !in chain.Logs(LookbackStart(0, ConfirmedNumber(lookback, 0), lookback), lookback + 1)
  {
    a := Announcement([], 2, Beacon.MAX_TTL as u64, [1], 0, 0);
    var logs: nat -> seq<Announcement> := n => if n == 0 then [a] else [];
    chain := Chain(lookback as u64, (n: nat) => SlowClock(spacing, n), _ => [], logs);
    forall b: nat | b < lookback
      ensures SpacedAt(chain, spacing, b)
    {
      SlowClockIsSpaced(spacing, lookback, b);
    }
    assert SlowClock(spacing, 0) == 0;
    assert EmittedWith(a, 0, Beacon.MAX_TTL);
    LaterBlocksAreEmpty(chain, 1, lookback + 1);
  }

  lemma SlowClockIsSpaced(spacing: nat, lookback: nat, b: nat)
    requires b < lookback && lookback * spacing < Beacon.MAX_TTL as nat
    ensures SlowClock(spacing, b) as nat + spacing <= SlowClock(spacing, b + 1) as nat
  {
    ProductGrows(b + 1, lookback, spacing);
    assert (b + 1) * spacing == b * spacing + spacing;
  }

  lemma {:induction false} LaterBlocksAreEmpty(chain: Chain, from: nat, until: nat)
    requires from >= 1 && forall b: nat :: b >= 1 ==> chain.logsOf(b) == []
    ensures chain.Logs(from, until) == []
    decreases until
  {
    if from < until {
      LaterBlocksAreEmpty(chain, from, until - 1);
    }
  }
}
