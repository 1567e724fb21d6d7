/** The fees task: claimable fees per market against the fee distributor's balance. Amounts are in wei. */
module Fees {
  import opened Bytes
  import opened Wrappers
  import opened Keys
  import opened Client
  import opened Server
  import opened Config
  import opened Metrics
  import opened Tallies

  datatype Line = TotalClaimable(total: int, markets: nat) | UndistributedGap(gap: int)

  datatype Finding = MarketUnread(market: string, error: string) | BalanceUnread(error: string) | GapTooLarge(gap: int)

  const FEE_DISTRIBUTOR := "FeeDistributorVault"

  /** 1000 USDT. */
  const GAP_LIMIT := 1000 * 1_000_000_000_000_000_000

  /** The distributor's balance as this run sees it; there may be no distributor. */
  function BalanceRead(vc: VersionConfig, balance: Result<nat>): Option<Result<nat>> {
    if FEE_DISTRIBUTOR in vc.vaults then Some(balance) else None
  }

  /** One finding for every market that could not be read. */
  function UnreadFindings(errors: map<string, string>): set<Finding> {
    set s | s in errors :: MarketUnread(s, errors[s])
  }

  /** The gauges of these markets hold these values, and every other gauge is as before. */
  ghost predicate GaugesSet<V(!new)>(version: string, values: map<string, V>, before: map<(string, string), V>,
                              after: map<(string, string), V>) {
    forall v: string, s: string ::
      if v == version && s in values then (v, s) in after && after[(v, s)] == values[s]
      else ((v, s) in after <==> (v, s) in before) && ((v, s) in before ==> after[(v, s)] == before[(v, s)])
  }

  /** The claim gauges and the history of their Set calls. */
  datatype Trace = Trace(gauges: PairSeries, sets: seq<(string, string)>)

  ghost function TraceOf(m: Registry): Trace
    reads m`marketClaimableFee, m`claimSets
  {
    Trace(m.marketClaimableFee, m.claimSets)
  }

  function AfterSet(t: Trace, k: (string, string), value: nat): Trace {
    Trace(t.gauges[k := value], t.sets + [k])
  }

  /** There was one Set call for each of these markets, on its own labels. */
  ghost predicate SetsAre(version: string, values: map<string, nat>, before: seq<(string, string)>,
                          after: seq<(string, string)>) {
    && before <= after
    && |after| == |before| + |values|
    && (forall s :: s in values ==> LabelsOf(version, s) in after[|before|..])
    && forall k :: k in after[|before|..] ==> exists s :: s in values && LabelsOf(version, s) == k
  }

  function LabelsOf(version: string, market: string): (string, string) {
    (version, market)
  }

  ghost function Total(got: map<string, Result<nat>>): nat {
    Sum(Values(got))
  }

  predicate Known(balance: Option<Result<nat>>) {
    balance.Some? && balance.value.Ok?
  }

  /** The findings besides the unread markets. */
  function DistributorFindings(total: int, balance: Option<Result<nat>>): seq<Finding> {
    if balance.None? then []
    else if balance.value.Err? then [BalanceUnread(balance.value.error)]
    else if total - balance.value.value > GAP_LIMIT then [GapTooLarge(total - balance.value.value)]
    else []
  }

  function GapLines(total: int, balance: Option<Result<nat>>): seq<Line> {
    if Known(balance) then [UndistributedGap(total - balance.value.value)] else []
  }

  lemma UnreadWith(errors: map<string, string>, s: string, e: string)
    requires s !in errors
    ensures multiset(UnreadFindings(errors[s := e])) == multiset(UnreadFindings(errors)) + multiset{MarketUnread(s, e)}
  {
    var more := errors[s := e];
    forall f
      ensures f in UnreadFindings(more) <==> f in UnreadFindings(errors) || f == MarketUnread(s, e)
    {
      if f in UnreadFindings(more) {
        var x :| x in more && f == MarketUnread(x, more[x]);
        assert x == s || (x in errors && more[x] == errors[x]);
      }
      if x :| x in errors && f == MarketUnread(x, errors[x]) {
        assert x in more && more[x] == errors[x];
      }
      assert s in more && more[s] == e;
    }
    assert UnreadFindings(more) == UnreadFindings(errors) + {MarketUnread(s, e)};
    assert MarketUnread(s, e) !in UnreadFindings(errors);
  }

  lemma GaugesWith<V(!new)>(version: string, values: map<string, V>, before: map<(string, string), V>,
                     after: map<(string, string), V>, s: string, v: V)
    requires GaugesSet(version, values, before, after)
    ensures GaugesSet(version, values[s := v], before, after[(version, s) := v])
  {
  }

  /** What the loop has done once the reads in seen are over. */
  ghost predicate Progress(version: string, seen: map<string, Result<nat>>, total: nat, findings: seq<Finding>,
                           before: Trace, after: Trace)
  {
    && total == Total(seen)
    && multiset(findings) == multiset(UnreadFindings(Errors(seen)))
    && GaugesSet(version, Values(seen), before.gauges, after.gauges)
    && SetsAre(version, Values(seen), before.sets, after.sets)
  }

  lemma SetsWith(version: string, values: map<string, nat>, before: seq<(string, string)>,
                 sets: seq<(string, string)>, s: string, v: nat)
    requires SetsAre(version, values, before, sets) && s !in values
    ensures SetsAre(version, values[s := v], before, sets + [LabelsOf(version, s)])
  {
    var k, more := LabelsOf(version, s), values[s := v];
    var added := sets[|before|..];
    assert (sets + [k])[|before|..] == added + [k];
    forall x | x in more
      ensures LabelsOf(version, x) in added + [k]
    {
      assert x == s || x in values;
    }
    forall l | l in added + [k]
      ensures exists x :: x in more && LabelsOf(version, x) == l
    {
      if l == k {
        assert s in more;
      } else {
        var x :| x in values && LabelsOf(version, x) == l;
        assert x in more;
      }
    }
  }

  lemma NoProgressYet(version: string, before: Trace)
    ensures Progress(version, map[], 0, [], before, before)
  {
    var none: map<string, Result<nat>> := map[];
    assert Values(none) == map[] && Errors(none) == map[];
    assert before.sets[|before.sets|..] == [];
  }

  lemma ProgressOk(version: string, seen: map<string, Result<nat>>, total: nat, findings: seq<Finding>,
                   before: Trace, after: Trace, s: string, v: nat)
    requires Progress(version, seen, total, findings, before, after) && s !in seen
    ensures Progress(version, seen[s := Ok(v)], total + v, findings, before, AfterSet(after, LabelsOf(version, s), v))
  {
    SplitWith(seen, s, Ok(v));
    SumWith(Values(seen), s, v);
    GaugesWith(version, Values(seen), before.gauges, after.gauges, s, v);
    SetsWith(version, Values(seen), before.sets, after.sets, s, v);
  }

  lemma ProgressErr(version: string, seen: map<string, Result<nat>>, total: nat, findings: seq<Finding>,
                    before: Trace, after: Trace, s: string, e: string)
    requires Progress(version, seen, total, findings, before, after) && s !in seen
    ensures Progress(version, seen[s := Err(e)], total, findings + [MarketUnread(s, e)], before, after)
  {
    SplitWith(seen, s, Err(e));
    UnreadWith(Errors(seen), s, e);
  }

  /** The range over markets, which visits them in any order. */
  method SumClaims(m: Registry, vc: VersionConfig, claim: string -> Result<nat>)
    returns (total: nat, findings: seq<Finding>)
    modifies m`marketClaimableFee, m`claimSets
    ensures Progress(vc.name, ReadAll(vc.markets.Keys, claim), total, findings, old(TraceOf(m)), TraceOf(m))
  {
    total, findings := 0, [];
    var rest := vc.markets.Keys;
    ghost var before := TraceOf(m);
    NothingRead(rest, claim);
    NoProgressYet(vc.name, before);
    while rest != {}
      invariant rest <= vc.markets.Keys
      invariant Progress(vc.name, ReadAll(vc.markets.Keys - rest, claim), total, findings, before, TraceOf(m))
      decreases |rest|
    {
      var sym :| sym in rest;
      ghost var seen := ReadAll(vc.markets.Keys - rest, claim);
      ReadOneMore(vc.markets.Keys, rest, claim, sym);
      rest := rest - {sym};
      total, findings := AddClaim(m, vc.name, sym, claim(sym), total, findings, seen, before);
    }
    AllRead(vc.markets.Keys, rest);
  }

  /** The loop body: r is what reading the market returned. */
  method AddClaim(m: Registry, version: string, sym: string, r: Result<nat>, total0: nat, findings0: seq<Finding>,
                  ghost seen: map<string, Result<nat>>, ghost before: Trace)
    returns (total: nat, findings: seq<Finding>)
    requires Progress(version, seen, total0, findings0, before, TraceOf(m)) && sym !in seen
    modifies m`marketClaimableFee, m`claimSets
    ensures Progress(version, seen[sym := r], total, findings, before, TraceOf(m))
  {
    total, findings := total0, findings0;
    if r.Err? {
      ProgressErr(version, seen, total, findings, before, TraceOf(m), sym, r.error);
      findings := findings + [MarketUnread(sym, r.error)];
      return;
    }
    ProgressOk(version, seen, total, findings, before, TraceOf(m), sym, r.value);
    m.SetMarketClaimableFee(version, sym, r.value);
    total := total + r.value;
  }

  /** The gap gauge and the time stamp are set exactly if there is a distributor whose balance was read. */
  ghost predicate GapStamped(version: string, held: Option<Result<nat>>, total: int, now: int,
                             gap0: map<string, int>, gap: map<string, int>,
                             lastRun0: map<string, int>, lastRun: map<string, int>) {
    if Known(held)
    then gap == gap0[version := total - held.value.value] && lastRun == lastRun0["fees_" + version := now]
    else gap == gap0 && lastRun == lastRun0
  }

  /** The distributor half of Run: the gap, if held says that there is a distributor and its balance was read. */
  method CompareDistributor(m: Registry, version: string, held: Option<Result<nat>>, total: nat, now: int)
    returns (lines: seq<Line>, findings: seq<Finding>)
    modifies m`feeDistributionGap, m`lastRun
    ensures findings == DistributorFindings(total, held) && lines == GapLines(total, held)
    ensures GapStamped(version, held, total, now, old(m.feeDistributionGap), m.feeDistributionGap,
                       old(m.lastRun), m.lastRun)
  {
    lines, findings := [], [];
    if held.None? {
      return;
    }
    var balance := held.value;
    if balance.Err? {
      findings := findings + [BalanceUnread(balance.error)];
      return;
    }
    var gap := total - balance.value;
    m.feeDistributionGap := m.feeDistributionGap[version := gap];
    lines := lines + [UndistributedGap(gap)];
    if gap > GAP_LIMIT {
      findings := findings + [GapTooLarge(gap)];
    }
    m.lastRun := m.lastRun["fees_" + version := now];
  }

  // ---------- the accounts agree ----------

  predicate IsUnread(f: Finding) {
    f.MarketUnread?
  }

  lemma {:induction false} UnreadSize(errors: map<string, string>)
    ensures |UnreadFindings(errors)| == |errors|
    decreases |errors|
  {
    if errors != map[] {
      var s :| s in errors;
      var less := errors - {s};
      UnreadSize(less);
      assert errors == less[s := errors[s]];
      assert UnreadFindings(errors) == UnreadFindings(less) + {MarketUnread(s, errors[s])};
    }
  }

  /** Set calls and unread markets together make up so many markets. */
  ghost predicate AddsUp(markets: nat, findings: seq<Finding>, before: Trace, after: Trace) {
    |after.sets| - |before.sets| + CountIf(findings, IsUnread) == markets
  }

  /** What a run leaves adds up: Set calls and unread markets in the list make up all markets. */
  lemma MarketsAccountedFor(version: string, got: map<string, Result<nat>>, total: nat, findings: seq<Finding>,
                            before: Trace, after: Trace)
    requires Progress(version, got, total, findings, before, after)
    ensures AddsUp(|got|, findings, before, after)
  {
    SplitSizes(got);
    UnreadSize(Errors(got));
    CountListed(findings, UnreadFindings(Errors(got)), IsUnread, UnreadFindings(Errors(got)));
  }

  lemma OthersAreNotUnread(findings: seq<Finding>, total: int, balance: Option<Result<nat>>)
    ensures var all := findings + DistributorFindings(total, balance);
      && CountIf(all, IsUnread) == CountIf(findings, IsUnread)
      && multiset(all) == multiset(findings) + multiset(DistributorFindings(total, balance))
  {
    CountIfConcat(findings, DistributorFindings(total, balance), IsUnread);
  }

  /** The market half of Run, with its accounts. */
  method CountedClaims(m: Registry, vc: VersionConfig, claim: string -> Result<nat>)
    returns (total: nat, findings: seq<Finding>)
    modifies m`marketClaimableFee, m`claimSets
    ensures var got := ReadAll(vc.markets.Keys, claim);
      && total == Total(got)
      && multiset(findings) == multiset(UnreadFindings(Errors(got)))
      && GaugesSet(vc.name, Values(got), old(m.marketClaimableFee), m.marketClaimableFee)
    ensures AddsUp(|vc.markets|, findings, old(TraceOf(m)), TraceOf(m))
  {
    total, findings := SumClaims(m, vc, claim);
    MarketsAccountedFor(vc.name, ReadAll(vc.markets.Keys, claim), total, findings, old(TraceOf(m)), TraceOf(m));
  }

  /** What a run reports of these reads. */
  ghost predicate Reported(markets: nat, got: map<string, Result<nat>>, held: Option<Result<nat>>, lines: seq<Line>,
                           findings: seq<Finding>) {
    && lines == [TotalClaimable(Total(got), markets)] + GapLines(Total(got), held)
    && multiset(findings) == multiset(UnreadFindings(Errors(got))) + multiset(DistributorFindings(Total(got), held))
  }

  /** Run on a version with markets. */
  method Reconcile(m: Registry, vc: VersionConfig, claim: string -> Result<nat>, held: Option<Result<nat>>, now: int)
    returns (lines: seq<Line>, findings: seq<Finding>)
    modifies m`marketClaimableFee, m`claimSets, m`totalClaimableFee, m`feeDistributionGap, m`lastRun
    ensures var got := ReadAll(vc.markets.Keys, claim);
      && Reported(|vc.markets|, got, held, lines, findings)
      && GaugesSet(vc.name, Values(got), old(m.marketClaimableFee), m.marketClaimableFee)
      && m.totalClaimableFee == old(m.totalClaimableFee)[vc.name := Total(got)]
      && GapStamped(vc.name, held, Total(got), now, old(m.feeDistributionGap), m.feeDistributionGap,
                    old(m.lastRun), m.lastRun)
    ensures AddsUp(|vc.markets|, findings, old(TraceOf(m)), TraceOf(m))
  {
    var total, unread := CountedClaims(m, vc, claim);
    OthersAreNotUnread(unread, total, held);
    m.totalClaimableFee := m.totalClaimableFee[vc.name := total];
    var more, others := CompareDistributor(m, vc.name, held, total, now);
    lines := [TotalClaimable(total, |vc.markets|)] + more;
    findings := unread + others;
  }

  /** claim and balance say what this run's reads return. */
  method Run(m: Registry, vc: VersionConfig, claim: string -> Result<nat>, balance: Result<nat>, now: int)
    returns (lines: seq<Line>, findings: seq<Finding>)
    modifies m`marketClaimableFee, m`claimSets, m`totalClaimableFee, m`feeDistributionGap, m`lastRun
    ensures vc.markets == map[] ==> lines == [] && findings == [] && unchanged(m)
    ensures vc.markets != map[] ==>
      var got, held := ReadAll(vc.markets.Keys, claim), BalanceRead(vc, balance);
      && Reported(|vc.markets|, got, held, lines, findings)
      && GaugesSet(vc.name, Values(got), old(m.marketClaimableFee), m.marketClaimableFee)
      && m.totalClaimableFee == old(m.totalClaimableFee)[vc.name := Total(got)]
      && GapStamped(vc.name, held, Total(got), now, old(m.feeDistributionGap), m.feeDistributionGap,
                    old(m.lastRun), m.lastRun)
    ensures AddsUp(|vc.markets|, findings, old(TraceOf(m)), TraceOf(m))
  {
    if |vc.markets| == 0 {
      return [], [];
    }
    lines, findings := Reconcile(m, vc, claim, BalanceRead(vc, balance), now);
  }

  // ---------- what is reported, spelled out ----------

  lemma IsUnreadFinding(errors: map<string, string>, s: string, e: string)
    ensures MarketUnread(s, e) in UnreadFindings(errors) <==> s in errors && errors[s] == e
  {
    assert s in errors ==> MarketUnread(s, errors[s]) in UnreadFindings(errors);
  }

  /** The market findings of a run are the read errors. */
  lemma UnreadMarketsReported(vc: VersionConfig, balance: Result<nat>, markets: nat, got: map<string, Result<nat>>,
                              lines: seq<Line>, findings: seq<Finding>)
    requires Reported(markets, got, BalanceRead(vc, balance), lines, findings)
    ensures forall s, e :: MarketUnread(s, e) in findings <==> s in got && got[s] == Err(e)
  {
    var others := DistributorFindings(Total(got), BalanceRead(vc, balance));
    SameMembers(findings, multiset(UnreadFindings(Errors(got))) + multiset(others));
    forall s, e
      ensures MarketUnread(s, e) in findings <==> s in got && got[s] == Err(e)
    {
      assert MarketUnread(s, e) !in multiset(others);
      assert MarketUnread(s, e) in findings <==> MarketUnread(s, e) in UnreadFindings(Errors(got));
      IsUnreadFinding(Errors(got), s, e);
    }
  }

  /**
    The distributor findings: its balance, if it is configured and cannot be read; the gap, exactly if the total exceeds
    the balance by more than 1000 * 10^18. The gap has a line whenever the balance was read.
   */
  lemma DistributorReported(vc: VersionConfig, balance: Result<nat>, markets: nat, got: map<string, Result<nat>>,
                            lines: seq<Line>, findings: seq<Finding>)
    requires Reported(markets, got, BalanceRead(vc, balance), lines, findings)
    ensures var configured, total := "FeeDistributorVault" in vc.vaults, Total(got);
      && (forall e :: BalanceUnread(e) in findings <==> configured && balance == Err(e))
      && (forall g :: GapTooLarge(g) in findings <==>
            && configured && balance.Ok? && g == total - balance.value
            && total > balance.value + 1_000_000_000_000_000_000_000)
      && (forall g :: UndistributedGap(g) in lines <==> configured && balance.Ok? && g == total - balance.value)
  {
    var total, held := Total(got), BalanceRead(vc, balance);
    var others := DistributorFindings(total, held);
    SameMembers(findings, multiset(UnreadFindings(Errors(got))) + multiset(others));
    forall f: Finding | !f.MarketUnread?
      ensures f in findings <==> f in others
    {
      assert f !in UnreadFindings(Errors(got));
      assert f in others <==> f in multiset(others);
    }
    DistributorCases(vc, balance, total);
    assert lines == [TotalClaimable(total, markets)] + GapLines(total, held);
  }

  lemma DistributorCases(vc: VersionConfig, balance: Result<nat>, total: int)
    ensures var configured, held := "FeeDistributorVault" in vc.vaults, BalanceRead(vc, balance);
      && (forall e :: BalanceUnread(e) in DistributorFindings(total, held) <==> configured && balance == Err(e))
      && (forall g :: GapTooLarge(g) in DistributorFindings(total, held) <==>
            && configured && balance.Ok? && g == total - balance.value
            && total > balance.value + 1_000_000_000_000_000_000_000)
      && (forall g :: UndistributedGap(g) in GapLines(total, held) <==>
            configured && balance.Ok? && g == total - balance.value)
  {
  }

  // ---------- over the wire ----------

  function ClaimKey(H: HashFn, vc: VersionConfig, market: string): Word
    requires market in vc.markets
  {
    ClaimableFeeAmountKey(H, vc.markets[market], vc.usdt)
  }

  /** The claim reader of a client: one getUint per market. */
  function ClaimReader(H: HashFn, c: Chain, vc: VersionConfig): string -> Result<nat> {
    market => if market in vc.markets then UintAt(c, vc.dataStore, ClaimKey(H, vc, market)) else Ok(0)
  }

  /** What the DataStore holds for every market. */
  function StoredClaims(H: HashFn, d: Contract, vc: VersionConfig): map<string, nat>
    requires d.DataStore?
  {
    map s | s in vc.markets :: Stored(d.uints, ClaimKey(H, vc, s), 0)
  }

  /** Against a node that serves the contracts, no read fails and the reported total is that of the storage. */
  lemma FeesOverTheWire(H: HashFn, c: Chain, world: World, vc: VersionConfig)
    requires Serves(c, world) && vc.dataStore in world && world[vc.dataStore].DataStore?
    ensures var got := ReadAll(vc.markets.Keys, ClaimReader(H, c, vc));
      && Errors(got) == map[]
      && Total(got) == Sum(StoredClaims(H, world[vc.dataStore], vc))
  {
    var got, stored := ReadAll(vc.markets.Keys, ClaimReader(H, c, vc)), StoredClaims(H, world[vc.dataStore], vc);
    forall s | s in got
      ensures got[s] == Ok(stored[s])
    {
      UintReadAgrees(c, world, vc.dataStore, ClaimKey(H, vc, s));
    }
    AllOk(got, stored);
  }

  /** And the reported gap makes up the difference between the two contracts' figures. */
  lemma GapOverTheWire(H: HashFn, c: Chain, world: World, vc: VersionConfig)
    requires Serves(c, world) && vc.dataStore in world && world[vc.dataStore].DataStore?
    requires vc.usdt in world && world[vc.usdt].Token? && FEE_DISTRIBUTOR in vc.vaults
    ensures var total := Total(ReadAll(vc.markets.Keys, ClaimReader(H, c, vc)));
      var vault := vc.vaults[FEE_DISTRIBUTOR];
      var lines := GapLines(total, BalanceRead(vc, BalanceAt(c, vc.usdt, vault)));
      && |lines| == 1 && lines[0].UndistributedGap?
      && lines[0].gap + Stored(world[vc.usdt].balances, vault, 0) == Sum(StoredClaims(H, world[vc.dataStore], vc))
  {
    FeesOverTheWire(H, c, world, vc);
    TokenReadAgrees(c, world, vc.usdt, vc.vaults[FEE_DISTRIBUTOR]);
  }
}
