/** The Prometheus series that the modelled code writes: each vector is a map from label tuple to value. */
module Metrics {

  /** A series with two labels. */
  type PairSeries = map<(string, string), nat>

  class Registry {
    var errorsTotal: PairSeries                                      // task, version
    var marketClaimableFee: PairSeries                               // version, market: wei
    var totalClaimableFee: map<string, nat>                          // version: wei
    var feeDistributionGap: map<string, int>                         // version: wei
    var fundingPerSize: map<(string, string, string), int>           // version, market, side: unscaled
    var fundingImbalance: map<(string, string), (nat, nat)>          // version, market: numerator, denominator
    var featureDisabled: map<(string, string, string), nat>          // version, feature, handler
    var roleMembersCount: PairSeries                                 // version, role
    var chainlinkFeedAge: map<string, nat>                           // feed: seconds
    var lastRun: map<string, int>                                    // task: time

    // the labels of every Set call on a vector so far, kept for what is said about runs
    ghost var claimSets: seq<(string, string)>
    ghost var featureSets: seq<(string, string, string)>

    constructor ()
      ensures errorsTotal == map[] && lastRun == map[]
      ensures marketClaimableFee == map[] && totalClaimableFee == map[] && feeDistributionGap == map[]
      ensures fundingPerSize == map[] && fundingImbalance == map[] && featureDisabled == map[]
      ensures roleMembersCount == map[] && chainlinkFeedAge == map[]
      ensures claimSets == [] && featureSets == []
    {
      errorsTotal, lastRun := map[], map[];
      marketClaimableFee, totalClaimableFee, feeDistributionGap := map[], map[], map[];
      fundingPerSize, fundingImbalance, featureDisabled := map[], map[], map[];
      roleMembersCount, chainlinkFeedAge := map[], map[];
      claimSets, featureSets := [], [];
    }

    method SetMarketClaimableFee(version: string, market: string, amount: nat)
      modifies `marketClaimableFee, `claimSets
      ensures marketClaimableFee == old(marketClaimableFee)[(version, market) := amount]
      ensures claimSets == old(claimSets) + [(version, market)]
    {
      marketClaimableFee := marketClaimableFee[(version, market) := amount];
      claimSets := claimSets + [(version, market)];
    }

    method SetFeatureDisabled(version: string, feature: string, handler: string, value: nat)
      modifies `featureDisabled, `featureSets
      ensures featureDisabled == old(featureDisabled)[(version, feature, handler) := value]
      ensures featureSets == old(featureSets) + [(version, feature, handler)]
    {
      featureDisabled := featureDisabled[(version, feature, handler) := value];
      featureSets := featureSets + [(version, feature, handler)];
    }
  }

  /** A counter's value; a series that was never incremented counts zero. */
  function Count<K>(counters: map<K, nat>, k: K): nat {
    if k in counters then counters[k] else 0
  }
}
