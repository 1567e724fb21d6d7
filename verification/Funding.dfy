/** The funding task: how far the long and short funding fees of a market are apart. */
module Funding {
  import opened Bytes
  import opened Wrappers
  import opened Keys
  import opened Client
  import opened Server
  import opened Config
  import opened Metrics
  import opened Tallies

  datatype Line = Snapshotted(imbalances: nat)

  datatype Finding = LongUnread(market: string, error: string) | ShortUnread(market: string, error: string)

  function Abs(x: int): nat {
    if x < 0 then -x else x
  }

  function AbsSub(a: int, b: int): nat {
    Abs(a - b)
  }

  function AbsMax(a: int, b: int): nat {
    if Abs(a) >= Abs(b) then Abs(a) else Abs(b)
  }

  /** The ratio exceeds 0.9, in exact arithmetic. */
  predicate Imbalanced(long: int, short: int) {
    AbsMax(long, short) > 0 && 10 * AbsSub(long, short) > 9 * AbsMax(long, short)
  }

  // ---------- the ratio ----------

  /** The exact imbalance ratio, where one is computed at all. */
  ghost function Ratio(l: int, s: int): real
    requires AbsMax(l, s) > 0
  {
    AbsSub(l, s) as real / AbsMax(l, s) as real
  }

  lemma RealTimesMonotone(x: real, y: real, b: real)
    requires b > 0.0
    ensures x < y <==> x * b < y * b
  {
    assert (y - x) * b == y * b - x * b;
  }

  lemma QuotientCompares(a: real, b: real, k: real)
    requires b > 0.0
    ensures a / b < k <==> a < k * b
    ensures a / b > k <==> a > k * b
  {
    assert a == a / b * b;
    RealTimesMonotone(a / b, k, b);
    RealTimesMonotone(k, a / b, b);
  }

  lemma RatioCompares(l: int, s: int, k: nat)
    requires AbsMax(l, s) > 0
    ensures Ratio(l, s) < k as real <==> AbsSub(l, s) < k * AbsMax(l, s)
    ensures Ratio(l, s) > k as real <==> AbsSub(l, s) > k * AbsMax(l, s)
  {
    QuotientCompares(AbsSub(l, s) as real, AbsMax(l, s) as real, k as real);
    assert (k * AbsMax(l, s)) as real == k as real * AbsMax(l, s) as real;
  }

  /**
    The ratio is between 0 and 2: 0 on balance, 1 when one side is empty, above 1 exactly for opposite signs, 2 for
    opposite values.
   */
  lemma RatioLandmarks(l: int, s: int)
    requires AbsMax(l, s) > 0
    ensures 0.0 <= Ratio(l, s) <= 2.0
    ensures Ratio(l, s) == Ratio(s, l)
    ensures Ratio(l, s) == 0.0 <==> l == s
    ensures Ratio(l, s) == 1.0 <==> (l == 0) != (s == 0)
    ensures Ratio(l, s) > 1.0 <==> (l < 0 < s || s < 0 < l)
    ensures Ratio(l, s) == 2.0 <==> l == -s
  {
    RatioCompares(l, s, 0);
    RatioCompares(l, s, 1);
    RatioCompares(l, s, 2);
  }

  lemma AbsTimes(k: int, x: int)
    ensures Abs(k * x) == Abs(k) * Abs(x)
  {
    if k >= 0 && x >= 0 {
      assert k * x >= 0;
    } else if k >= 0 {
      assert k * x == -(k * -x) && k * -x >= 0;
    } else if x >= 0 {
      assert k * x == -(-k * x) && -k * x >= 0;
    } else {
      assert k * x == -k * -x && -k * -x >= 0;
    }
  }

  lemma TimesMonotone(k: nat, a: nat, b: nat)
    requires a <= b
    ensures k * a <= k * b
  {
  }

  lemma SidesScale(l: int, s: int, k: int)
    ensures AbsSub(k * l, k * s) == Abs(k) * AbsSub(l, s)
    ensures AbsMax(k * l, k * s) == Abs(k) * AbsMax(l, s)
  {
    AbsTimes(k, l);
    AbsTimes(k, s);
    AbsTimes(k, l - s);
    assert k * (l - s) == k * l - k * s;
    if Abs(l) >= Abs(s) {
      TimesMonotone(Abs(k), Abs(s), Abs(l));
    } else {
      TimesMonotone(Abs(k), Abs(l), Abs(s));
    }
  }

  lemma CancelFactor(k: nat, a: nat, b: nat)
    requires k > 0 && b > 0 && k * b > 0
    ensures (k * a) as real / (k * b) as real == a as real / b as real
  {
    var q := a as real / b as real;
    assert (k * a) as real == k as real * a as real && (k * b) as real == k as real * b as real;
    assert a as real == q * b as real;
    assert k as real * (q * b as real) == q * (k as real * b as real);
  }

  /** Units do not matter: scaling both sides by the same factor keeps the ratio. */
  lemma RatioScales(l: int, s: int, k: int)
    requires AbsMax(l, s) > 0 && k != 0
    ensures AbsMax(k * l, k * s) > 0 && Ratio(k * l, k * s) == Ratio(l, s)
  {
    SidesScale(l, s, k);
    assert Abs(k) * AbsMax(l, s) > 0;
    CancelFactor(Abs(k), AbsSub(l, s), AbsMax(l, s));
  }

  /** A market counts as imbalanced exactly if the smaller side is under a tenth of the larger, or the signs differ. */
  lemma ImbalancedMeans(l: int, s: int)
    ensures Imbalanced(l, s) <==>
      (l != 0 || s != 0)
      && ((l < 0 < s || s < 0 < l) || 10 * (if Abs(l) <= Abs(s) then Abs(l) else Abs(s)) < AbsMax(l, s))
  {
  }

  // ---------- the run ----------

  /** What this run's two reads return for a market, by side. */
  datatype Sides = Sides(long: Result<int>, short: Result<int>)

  predicate Measured(x: Sides) {
    x.long.Ok? && x.short.Ok?
  }

  predicate CountsAsImbalanced(x: Sides) {
    Measured(x) && Imbalanced(x.long.value, x.short.value)
  }

  /** A market's finding, if any: the short side is only read when the long side could be. */
  function FindingOf(market: string, x: Sides): Option<Finding> {
    if x.long.Err? then Some(LongUnread(market, x.long.error))
    else if x.short.Err? then Some(ShortUnread(market, x.short.error))
    else None
  }

  ghost function Findings(seen: map<string, Sides>): set<Finding> {
    set s | s in seen && FindingOf(s, seen[s]).Some? :: FindingOf(s, seen[s]).value
  }

  ghost function Imbalances(seen: map<string, Sides>): set<string> {
    set s | s in seen && CountsAsImbalanced(seen[s])
  }

  type SideGauges = map<(string, string, string), int>
  type RatioGauges = map<(string, string), (nat, nat)>

  const LONG := "long"
  const SHORT := "short"

  /** Both sides of every measured market are in their gauges; all other gauges are as before. */
  ghost predicate SidesSet(version: string, seen: map<string, Sides>, before: SideGauges, after: SideGauges) {
    forall v: string, s: string, side: string ::
      if v == version && s in seen && Measured(seen[s]) && (side == LONG || side == SHORT)
      then (v, s, side) in after
          && after[(v, s, side)] == (if side == LONG then seen[s].long.value else seen[s].short.value)
      else ((v, s, side) in after <==> (v, s, side) in before)
           && ((v, s, side) in before ==> after[(v, s, side)] == before[(v, s, side)])
  }

  predicate HasRatio(x: Sides) {
    Measured(x) && AbsMax(x.long.value, x.short.value) > 0
  }

  /** The numerator and denominator of the ratio. */
  function RatioOf(long: int, short: int): (nat, nat) {
    (AbsSub(long, short), AbsMax(long, short))
  }

  /** The ratio of every measured market that has one is in its gauge; all other gauges are as before. */
  ghost predicate RatiosSet(version: string, seen: map<string, Sides>, before: RatioGauges, after: RatioGauges) {
    forall v: string, s: string ::
      if v == version && s in seen && HasRatio(seen[s])
      then (v, s) in after && after[(v, s)] == RatioOf(seen[s].long.value, seen[s].short.value)
      else ((v, s) in after <==> (v, s) in before) && ((v, s) in before ==> after[(v, s)] == before[(v, s)])
  }

  lemma FindingsWith(seen: map<string, Sides>, s: string, x: Sides)
    requires s !in seen
    ensures multiset(Findings(seen[s := x]))
         == multiset(Findings(seen)) + if FindingOf(s, x).Some? then multiset{FindingOf(s, x).value} else multiset{}
  {
    var more := seen[s := x];
    forall f
      ensures f in Findings(more) <==> f in Findings(seen) || FindingOf(s, x) == Some(f)
    {
      if f in Findings(more) {
        var k :| k in more && FindingOf(k, more[k]) == Some(f);
        assert k == s || (k in seen && seen[k] == more[k]);
      }
      if k :| k in seen && FindingOf(k, seen[k]) == Some(f) {
        assert k in more && more[k] == seen[k];
      }
      assert s in more && more[s] == x;
    }
    if FindingOf(s, x).Some? {
      var f := FindingOf(s, x).value;
      assert f !in Findings(seen);
      assert Findings(more) == Findings(seen) + {f};
    } else {
      assert Findings(more) == Findings(seen);
    }
  }

  lemma ImbalancesWith(seen: map<string, Sides>, s: string, x: Sides)
    requires s !in seen
    ensures |Imbalances(seen[s := x])| == |Imbalances(seen)| + if CountsAsImbalanced(x) then 1 else 0
  {
    if CountsAsImbalanced(x) {
      assert Imbalances(seen[s := x]) == Imbalances(seen) + {s};
    } else {
      assert Imbalances(seen[s := x]) == Imbalances(seen);
    }
  }

  ghost predicate Progress(version: string, seen: map<string, Sides>, imbalances: nat, findings: seq<Finding>,
                           sides0: SideGauges, sides: SideGauges, ratios0: RatioGauges, ratios: RatioGauges)
  {
    && imbalances == |Imbalances(seen)|
    && multiset(findings) == multiset(Findings(seen))
    && SidesSet(version, seen, sides0, sides)
    && RatiosSet(version, seen, ratios0, ratios)
  }

  lemma NoProgressYet(version: string, sides: SideGauges, ratios: RatioGauges)
    ensures Progress(version, map[], 0, [], sides, sides, ratios, ratios)
  {
    assert Findings(map[]) == {} && Imbalances(map[]) == {};
  }

  lemma ProgressUnread(version: string, seen: map<string, Sides>, imbalances: nat, findings: seq<Finding>,
                       sides0: SideGauges, sides: SideGauges, ratios0: RatioGauges, ratios: RatioGauges,
                       s: string, x: Sides)
    requires Progress(version, seen, imbalances, findings, sides0, sides, ratios0, ratios)
    requires s !in seen && !Measured(x)
    ensures Progress(version, seen[s := x], imbalances, findings + [FindingOf(s, x).value],
                     sides0, sides, ratios0, ratios)
  {
    FindingsWith(seen, s, x);
    ImbalancesWith(seen, s, x);
  }

  lemma ProgressMeasured(version: string, seen: map<string, Sides>, imbalances: nat, findings: seq<Finding>,
                         sides0: SideGauges, sides: SideGauges, ratios0: RatioGauges, ratios: RatioGauges,
                         s: string, l: int, h: int)
    requires Progress(version, seen, imbalances, findings, sides0, sides, ratios0, ratios) && s !in seen
    ensures Progress(version, seen[s := Sides(Ok(l), Ok(h))], imbalances + (if Imbalanced(l, h) then 1 else 0),
                     findings, sides0, sides[(version, s, LONG) := l][(version, s, SHORT) := h],
                     ratios0, if AbsMax(l, h) > 0 then ratios[(version, s) := RatioOf(l, h)] else ratios)
  {
    FindingsWith(seen, s, Sides(Ok(l), Ok(h)));
    ImbalancesWith(seen, s, Sides(Ok(l), Ok(h)));
  }

  /** The loop of Run: the markets are visited in any order. */
  method Measure(m: Registry, vc: VersionConfig, read: string -> Sides)
    returns (imbalances: nat, findings: seq<Finding>)
    modifies m`fundingPerSize, m`fundingImbalance
    ensures Progress(vc.name, ReadAll(vc.markets.Keys, read), imbalances, findings,
                     old(m.fundingPerSize), m.fundingPerSize, old(m.fundingImbalance), m.fundingImbalance)
  {
    imbalances, findings := 0, [];
    var rest := vc.markets.Keys;
    ghost var sides0, ratios0 := m.fundingPerSize, m.fundingImbalance;
    NothingRead(rest, read);
    NoProgressYet(vc.name, sides0, ratios0);
    while rest != {}
      invariant rest <= vc.markets.Keys
      invariant Progress(vc.name, ReadAll(vc.markets.Keys - rest, read), imbalances, findings,
                         sides0, m.fundingPerSize, ratios0, m.fundingImbalance)
      decreases |rest|
    {
      var sym :| sym in rest;
      ghost var seen := ReadAll(vc.markets.Keys - rest, read);
      ReadOneMore(vc.markets.Keys, rest, read, sym);
      rest := rest - {sym};
      imbalances, findings := AddMarket(m, vc.name, sym, read(sym), imbalances, findings, seen, sides0, ratios0);
    }
    AllRead(vc.markets.Keys, rest);
  }

  /** The loop body: x is what reading the market's two sides returned. */
  method AddMarket(m: Registry, version: string, sym: string, x: Sides, imbalances0: nat, findings0: seq<Finding>,
                   ghost seen: map<string, Sides>, ghost sides0: SideGauges, ghost ratios0: RatioGauges)
    returns (imbalances: nat, findings: seq<Finding>)
    requires Progress(version, seen, imbalances0, findings0, sides0, m.fundingPerSize, ratios0, m.fundingImbalance)
    requires sym !in seen
    modifies m`fundingPerSize, m`fundingImbalance
    ensures Progress(version, seen[sym := x], imbalances, findings,
                     sides0, m.fundingPerSize, ratios0, m.fundingImbalance)
  {
    imbalances, findings := imbalances0, findings0;
    if !Measured(x) {
      ProgressUnread(version, seen, imbalances, findings, sides0, m.fundingPerSize, ratios0, m.fundingImbalance,
                     sym, x);
    }
    if x.long.Err? {
      findings := findings + [LongUnread(sym, x.long.error)];
      return;
    }
    if x.short.Err? {
      findings := findings + [ShortUnread(sym, x.short.error)];
      return;
    }
    ProgressMeasured(version, seen, imbalances, findings, sides0, m.fundingPerSize, ratios0, m.fundingImbalance,
                     sym, x.long.value, x.short.value);
    var counted := RecordMarket(m, version, sym, x.long.value, x.short.value);
    imbalances := imbalances + counted;
  }

  /** What Run does for a market whose two sides were read; returns what to add to the imbalance count. */
  method RecordMarket(m: Registry, version: string, sym: string, long: int, short: int) returns (counted: nat)
    modifies m`fundingPerSize, m`fundingImbalance
    ensures m.fundingPerSize == old(m.fundingPerSize)[(version, sym, LONG) := long][(version, sym, SHORT) := short]
    ensures AbsMax(long, short) > 0 ==>
      m.fundingImbalance == old(m.fundingImbalance)[(version, sym) := RatioOf(long, short)]
    ensures AbsMax(long, short) == 0 ==> m.fundingImbalance == old(m.fundingImbalance)
    ensures counted == if Imbalanced(long, short) then 1 else 0
  {
    counted := 0;
    m.fundingPerSize := m.fundingPerSize[(version, sym, LONG) := long];
    m.fundingPerSize := m.fundingPerSize[(version, sym, SHORT) := short];
    var imb, maxSide := AbsSub(long, short), AbsMax(long, short);
    if maxSide > 0 {
      m.fundingImbalance := m.fundingImbalance[(version, sym) := (imb, maxSide)];
      if 10 * imb > 9 * maxSide {
        counted := 1;
      }
    }
  }

  /** read says what this run's reads return. */
  method Run(m: Registry, vc: VersionConfig, read: string -> Sides, now: int)
    returns (lines: seq<Line>, findings: seq<Finding>)
    modifies m`fundingPerSize, m`fundingImbalance, m`lastRun
    ensures vc.markets == map[] ==> lines == [] && findings == [] && unchanged(m)
    ensures vc.markets != map[] ==>
      && |lines| == 1 && m.lastRun == old(m.lastRun)["funding_" + vc.name := now]
      && Progress(vc.name, ReadAll(vc.markets.Keys, read), lines[0].imbalances, findings,
                  old(m.fundingPerSize), m.fundingPerSize, old(m.fundingImbalance), m.fundingImbalance)
  {
    lines, findings := [], [];
    if |vc.markets| == 0 {
      return;
    }
    var imbalances, unread := Measure(m, vc, read);
    lines, findings := [Snapshotted(imbalances)], unread;
    m.lastRun := m.lastRun["funding_" + vc.name := now];
  }

  // ---------- what is reported, spelled out ----------

  /** A market whose long side cannot be read is reported for that; only otherwise is the short side looked at. */
  lemma UnreadSidesReported(seen: map<string, Sides>, findings: seq<Finding>)
    requires multiset(findings) == multiset(Findings(seen))
    ensures forall s, e :: LongUnread(s, e) in findings <==> s in seen && seen[s].long == Err(e)
    ensures forall s, e :: ShortUnread(s, e) in findings <==> s in seen && seen[s].long.Ok? && seen[s].short == Err(e)
  {
    SameMembers(findings, multiset(Findings(seen)));
    forall s, e
      ensures LongUnread(s, e) in findings <==> s in seen && seen[s].long == Err(e)
      ensures ShortUnread(s, e) in findings <==> s in seen && seen[s].long.Ok? && seen[s].short == Err(e)
    {
      assert LongUnread(s, e) in findings <==> LongUnread(s, e) in Findings(seen);
      assert ShortUnread(s, e) in findings <==> ShortUnread(s, e) in Findings(seen);
      assert s in seen && seen[s].long == Err(e) ==> FindingOf(s, seen[s]) == Some(LongUnread(s, e));
      assert s in seen && seen[s].long.Ok? && seen[s].short == Err(e) ==>
        FindingOf(s, seen[s]) == Some(ShortUnread(s, e));
    }
  }

  /** The ratio gauge of a measured market: difference over the larger magnitude, untouched if both sides are zero. */
  lemma RatioGauge(version: string, seen: map<string, Sides>, before: RatioGauges, after: RatioGauges, s: string,
                   l: int, h: int)
    requires RatiosSet(version, seen, before, after) && s in seen && seen[s] == Sides(Ok(l), Ok(h))
    ensures l == 0 && h == 0 ==> ((version, s) in after <==> (version, s) in before)
    ensures l != 0 || h != 0 ==>
      && (version, s) in after
      && var (part, whole) := after[(version, s)];
      && part == (if l >= h then l - h else h - l)
      && whole > 0 && -whole <= l <= whole && -whole <= h <= whole && whole in {l, -l, h, -h}
      && part as real / whole as real == Ratio(l, h)
  {
  }

  // ---------- over the wire ----------

  function SideKey(H: HashFn, vc: VersionConfig, market: string, isLong: bool): Word
    requires market in vc.markets
  {
    FundingFeeAmountPerSizeKey(H, vc.markets[market], vc.usdt, isLong)
  }

  function SideReader(H: HashFn, c: Chain, vc: VersionConfig): string -> Sides {
    market =>
      if market !in vc.markets then Sides(Ok(0), Ok(0))
      else
        Sides(IntAt(c, vc.dataStore, SideKey(H, vc, market, true)),
              IntAt(c, vc.dataStore, SideKey(H, vc, market, false)))
  }

  /** What the DataStore holds for one side of a market. */
  function StoredSide(H: HashFn, d: Contract, vc: VersionConfig, market: string, isLong: bool): int
    requires d.DataStore? && market in vc.markets
  {
    Stored(d.ints, SideKey(H, vc, market, isLong), 0)
  }

  /** Against a node that serves the contracts, both sides of every market are read, signs included. */
  lemma FundingOverTheWire(H: HashFn, c: Chain, world: World, vc: VersionConfig, market: string)
    requires Serves(c, world) && SelectorsDiffer(c.sel) && vc.dataStore in world && world[vc.dataStore].DataStore?
    requires market in vc.markets
    ensures var d := world[vc.dataStore];
      SideReader(H, c, vc)(market)
        == Sides(Ok(StoredSide(H, d, vc, market, true)), Ok(StoredSide(H, d, vc, market, false)))
  {
    IntReadAgrees(c, world, vc.dataStore, SideKey(H, vc, market, true));
    IntReadAgrees(c, world, vc.dataStore, SideKey(H, vc, market, false));
  }

  /** The markets whose stored sides are out of balance. */
  ghost function StoredImbalances(H: HashFn, d: Contract, vc: VersionConfig): set<string>
    requires d.DataStore?
  {
    set s | s in vc.markets && Imbalanced(StoredSide(H, d, vc, s, true), StoredSide(H, d, vc, s, false))
  }

  lemma ReadsAreStored(H: HashFn, c: Chain, world: World, vc: VersionConfig)
    requires Serves(c, world) && SelectorsDiffer(c.sel) && vc.dataStore in world && world[vc.dataStore].DataStore?
    ensures var got := ReadAll(vc.markets.Keys, SideReader(H, c, vc));
      && Findings(got) == {}
      && Imbalances(got) == StoredImbalances(H, world[vc.dataStore], vc)
  {
    var got := ReadAll(vc.markets.Keys, SideReader(H, c, vc));
    forall s | s in vc.markets
      ensures Measured(got[s])
      ensures s in Imbalances(got) <==> s in StoredImbalances(H, world[vc.dataStore], vc)
    {
      FundingOverTheWire(H, c, world, vc, s);
    }
  }

  /** A run there reports no finding, and its count is the number of markets whose stored sides are out of balance. */
  lemma RunOverTheWire(H: HashFn, c: Chain, world: World, vc: VersionConfig, imbalances: nat, findings: seq<Finding>,
                       sides0: SideGauges, sides: SideGauges, ratios0: RatioGauges, ratios: RatioGauges)
    requires Serves(c, world) && SelectorsDiffer(c.sel) && vc.dataStore in world && world[vc.dataStore].DataStore?
    requires Progress(vc.name, ReadAll(vc.markets.Keys, SideReader(H, c, vc)), imbalances, findings,
                      sides0, sides, ratios0, ratios)
    ensures findings == [] && imbalances == |StoredImbalances(H, world[vc.dataStore], vc)|
  {
    ReadsAreStored(H, c, world, vc);
    CountsOf(vc.name, ReadAll(vc.markets.Keys, SideReader(H, c, vc)), imbalances, findings,
             sides0, sides, ratios0, ratios);
  }

  /** And each side gauge it leaves holds what is stored. */
  lemma GaugesOverTheWire(H: HashFn, c: Chain, world: World, vc: VersionConfig, market: string,
                          sides0: SideGauges, sides: SideGauges)
    requires Serves(c, world) && SelectorsDiffer(c.sel) && vc.dataStore in world && world[vc.dataStore].DataStore?
    requires SidesSet(vc.name, ReadAll(vc.markets.Keys, SideReader(H, c, vc)), sides0, sides) && market in vc.markets
    ensures var d := world[vc.dataStore];
      && (vc.name, market, LONG) in sides && (vc.name, market, SHORT) in sides
      && sides[(vc.name, market, LONG)] == StoredSide(H, d, vc, market, true)
      && sides[(vc.name, market, SHORT)] == StoredSide(H, d, vc, market, false)
  {
    FundingOverTheWire(H, c, world, vc, market);
    GaugesOf(vc.name, ReadAll(vc.markets.Keys, SideReader(H, c, vc)), sides0, sides, market);
  }

  lemma GaugesOf(version: string, seen: map<string, Sides>, sides0: SideGauges, sides: SideGauges, s: string)
    requires SidesSet(version, seen, sides0, sides) && s in seen && Measured(seen[s])
    ensures (version, s, LONG) in sides && sides[(version, s, LONG)] == seen[s].long.value
    ensures (version, s, SHORT) in sides && sides[(version, s, SHORT)] == seen[s].short.value
  {
    assert SHORT[0] != LONG[0];
  }

  lemma CountsOf(version: string, seen: map<string, Sides>, imbalances: nat, findings: seq<Finding>,
                 sides0: SideGauges, sides: SideGauges, ratios0: RatioGauges, ratios: RatioGauges)
    requires Progress(version, seen, imbalances, findings, sides0, sides, ratios0, ratios)
    ensures imbalances == |Imbalances(seen)|
    ensures Findings(seen) == {} ==> findings == []
  {
    assert |findings| == |multiset(findings)|;
  }
}
