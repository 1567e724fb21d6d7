/**
  From the writes to the reports: what the tasks say about contracts that were written cell by cell, in terms of the
  values last written and of nothing in between.
 */
module Ledger {
  import opened Bytes
  import opened Wrappers
  import opened Keys
  import opened Client
  import opened Server
  import opened Cells
  import opened Config
  import opened Tallies
  import Fees
  import Features
  import Funding
  import Roles

  // ---------- the claimable total, write by write ----------

  function ClaimCell(vc: VersionConfig, market: string): Key
    requires market in vc.markets
  {
    ClaimableFeeAmount(vc.markets[market], vc.usdt)
  }

  /** The amount last written for every market's claimable fee. */
  ghost function LastClaims(writes: seq<Write<uint256>>, vc: VersionConfig): map<string, nat> {
    map s | s in vc.markets :: LastWritten(writes, ClaimCell(vc, s), 0) as nat
  }

  /**
    From the writes to the report: against a node that serves a DataStore written cell by cell, the fees task reads
    every market, and its total is the sum over the markets of the amount last written to that market's claimable fee,
    provided the hash tells those cells from all cells that were written.
   */
  lemma TotalIsSumOfLastWrites(H: HashFn, c: Chain, world: World, vc: VersionConfig, writes: seq<Write<uint256>>)
    requires Serves(c, world) && vc.dataStore in world && world[vc.dataStore].DataStore?
    requires world[vc.dataStore].uints == Storage(H, writes)
    requires forall s :: s in vc.markets ==> HashSeparates(H, ClaimCell(vc, s), writes)
    ensures var got := ReadAll(vc.markets.Keys, Fees.ClaimReader(H, c, vc));
      && Errors(got) == map[]
      && Fees.Total(got) == Sum(LastClaims(writes, vc))
  {
    Fees.FeesOverTheWire(H, c, world, vc);
    ClaimsReadBack(H, world[vc.dataStore], vc, writes);
  }

  lemma ClaimsReadBack(H: HashFn, d: Contract, vc: VersionConfig, writes: seq<Write<uint256>>)
    requires d.DataStore? && d.uints == Storage(H, writes)
    requires forall s :: s in vc.markets ==> HashSeparates(H, ClaimCell(vc, s), writes)
    ensures Fees.StoredClaims(H, d, vc) == LastClaims(writes, vc)
  {
    forall s | s in vc.markets
      ensures Fees.StoredClaims(H, d, vc)[s] == LastClaims(writes, vc)[s]
    {
      ClaimReadsBack(H, writes, vc, s);
    }
  }

  lemma ClaimReadsBack(H: HashFn, writes: seq<Write<uint256>>, vc: VersionConfig, market: string)
    requires market in vc.markets && HashSeparates(H, ClaimCell(vc, market), writes)
    ensures Stored(Storage(H, writes), Fees.ClaimKey(H, vc, market), 0)
         == LastWritten(writes, ClaimCell(vc, market), 0)
  {
    StorageReadsBack(H, writes, ClaimCell(vc, market), 0);
  }

  // ---------- flags ----------

  /** The feature names can be told from one another and from everything that was written. */
  ghost predicate FlagsSeparate(H: HashFn, vc: VersionConfig, writes: seq<Write<bool>>, name: string) {
    && HashSeparates(H, Root(Ascii(name)), writes)
    && forall h :: h in vc.handlers ==> HashSeparates(H, FeatureForHandler(Ascii(name), vc.handlers[h]), writes)
  }

  /**
    The global probe of a feature returns the flag last written under the hash of its name, and a handler's probe the
    flag last written under name and handler address.
   */
  lemma ProbesReadLastWrites(H: HashFn, c: Chain, world: World, vc: VersionConfig, writes: seq<Write<bool>>,
                             name: string)
    requires Serves(c, world) && SelectorsDiffer(c.sel) && vc.dataStore in world && world[vc.dataStore].DataStore?
    requires world[vc.dataStore].bools == Storage(H, writes) && FlagsSeparate(H, vc, writes, name)
    ensures Features.FlagReader(H, c, vc)(Features.Probe(name, None))
         == Ok(LastWritten(writes, Root(Ascii(name)), false))
    ensures forall h :: h in vc.handlers ==>
      Features.FlagReader(H, c, vc)(Features.Probe(name, Some(h)))
        == Ok(LastWritten(writes, FeatureForHandler(Ascii(name), vc.handlers[h]), false))
  {
    FlagReadsBack(H, c, world, vc.dataStore, Root(Ascii(name)), writes);
    forall h | h in vc.handlers
      ensures Features.FlagReader(H, c, vc)(Features.Probe(name, Some(h)))
           == Ok(LastWritten(writes, FeatureForHandler(Ascii(name), vc.handlers[h]), false))
    {
      FlagReadsBack(H, c, world, vc.dataStore, FeatureForHandler(Ascii(name), vc.handlers[h]), writes);
    }
  }

  lemma FlagReadsBack(H: HashFn, c: Chain, world: World, ds: Address, k: Key, writes: seq<Write<bool>>)
    requires Serves(c, world) && SelectorsDiffer(c.sel) && ds in world && world[ds].DataStore?
    requires world[ds].bools == Storage(H, writes) && HashSeparates(H, k, writes)
    ensures BoolAt(c, ds, KeyOf(H, k)) == Ok(LastWritten(writes, k, false))
  {
    BoolReadAgrees(c, world, ds, KeyOf(H, k));
    StorageReadsBack(H, writes, k, false);
  }

  /** The features whose global flag was last written true. */
  ghost function PausedGlobally(writes: seq<Write<bool>>, names: seq<string>): set<string> {
    set n | n in names && LastWritten(writes, Root(Ascii(n)), false)
  }

  /** The features and handlers whose flag was last written true. */
  ghost function PausedOn(writes: seq<Write<bool>>, names: seq<string>, handlers: map<string, Address>)
    : set<(string, string)>
  {
    set n, h | n in names && h in handlers && LastWritten(writes, FeatureForHandler(Ascii(n), handlers[h]), false)
      :: (n, h)
  }

  /** What every probe of a run returns. */
  ghost predicate ReadsLastWrites(read: Features.Reader, writes: seq<Write<bool>>, names: seq<string>,
                                  handlers: map<string, Address>) {
    && (forall n :: n in names ==>
          read(Features.Probe(n, None)) == Ok(LastWritten(writes, Root(Ascii(n)), false)))
    && forall n, h :: n in names && h in handlers ==>
         read(Features.Probe(n, Some(h))) == Ok(LastWritten(writes, FeatureForHandler(Ascii(n), handlers[h]), false))
  }

  /** A run of the features task reports as many disabled flags as were last written true, globally or on a handler. */
  lemma DisabledAreLastWritten(H: HashFn, c: Chain, world: World, vc: VersionConfig, writes: seq<Write<bool>>,
                               names: seq<string>, disabled: nat, findings: seq<Features.Finding>,
                               before: Features.Trace, after: Features.Trace)
    requires Serves(c, world) && SelectorsDiffer(c.sel) && vc.dataStore in world && world[vc.dataStore].DataStore?
    requires world[vc.dataStore].bools == Storage(H, writes)
    requires forall n :: n in names ==> FlagsSeparate(H, vc, writes, n)
    requires Features.Progress(Features.FlagReader(H, c, vc), vc.name, Features.Probes(names, vc.handlers.Keys),
                               disabled, findings, before, after)
    ensures disabled == |PausedGlobally(writes, names)| + |PausedOn(writes, names, vc.handlers)|
  {
    var read := Features.FlagReader(H, c, vc);
    AllReadLastWrites(H, c, world, vc, writes, names);
    DisabledIsOns(read, vc.name, Features.Probes(names, vc.handlers.Keys), disabled, findings, before, after);
    OnsArePaused(read, writes, names, vc.handlers);
  }

  lemma AllReadLastWrites(H: HashFn, c: Chain, world: World, vc: VersionConfig, writes: seq<Write<bool>>,
                          names: seq<string>)
    requires Serves(c, world) && SelectorsDiffer(c.sel) && vc.dataStore in world && world[vc.dataStore].DataStore?
    requires world[vc.dataStore].bools == Storage(H, writes)
    requires forall n :: n in names ==> FlagsSeparate(H, vc, writes, n)
    ensures ReadsLastWrites(Features.FlagReader(H, c, vc), writes, names, vc.handlers)
  {
    forall n | n in names
      ensures Features.FlagReader(H, c, vc)(Features.Probe(n, None)) == Ok(LastWritten(writes, Root(Ascii(n)), false))
      ensures forall h :: h in vc.handlers ==>
        Features.FlagReader(H, c, vc)(Features.Probe(n, Some(h)))
          == Ok(LastWritten(writes, FeatureForHandler(Ascii(n), vc.handlers[h]), false))
    {
      ProbesReadLastWrites(H, c, world, vc, writes, n);
    }
  }

  lemma DisabledIsOns(read: Features.Reader, version: string, ps: set<Features.Probe>, disabled: nat,
                      findings: seq<Features.Finding>, before: Features.Trace, after: Features.Trace)
    requires Features.Progress(read, version, ps, disabled, findings, before, after)
    ensures disabled == |Features.Ons(read, ps)|
  {
  }

  lemma {:induction false} ProbesOfAll(names: seq<string>, handlers: set<string>, p: Features.Probe)
    ensures p in Features.Probes(names, handlers) <==>
      p.feature in names && (p.handler.Some? ==> p.handler.value in handlers)
  {
    if names != [] {
      var init, last := names[..|names| - 1], names[|names| - 1];
      ProbesOfAll(init, handlers, p);
      assert names == init + [last];
      if p.handler.Some? {
        assert p == Features.Probe(p.feature, Some(p.handler.value));
      } else {
        assert p == Features.Probe(p.feature, None);
      }
    }
  }

  lemma OnsArePaused(read: Features.Reader, writes: seq<Write<bool>>, names: seq<string>,
                     handlers: map<string, Address>)
    requires ReadsLastWrites(read, writes, names, handlers)
    ensures |Features.Ons(read, Features.Probes(names, handlers.Keys))|
         == |PausedGlobally(writes, names)| + |PausedOn(writes, names, handlers)|
  {
    var ons := Features.Ons(read, Features.Probes(names, handlers.Keys));
    var globals := set p | p in ons && p.handler.None?;
    var others := ons - globals;
    forall p
      ensures p in ons <==>
        p.feature in names && (p.handler.Some? ==> p.handler.value in handlers) && Features.On(read, p)
    {
      ProbesOfAll(names, handlers.Keys, p);
    }
    GlobalsPaused(read, writes, names, handlers, globals);
    HandlersPaused(read, writes, names, handlers, others);
    Features.DisjointSize(globals, others);
    assert globals + others == ons;
  }

  lemma GlobalsPaused(read: Features.Reader, writes: seq<Write<bool>>, names: seq<string>,
                      handlers: map<string, Address>, globals: set<Features.Probe>)
    requires ReadsLastWrites(read, writes, names, handlers)
    requires forall p :: p in globals <==> p.handler.None? && p.feature in names && Features.On(read, p)
    ensures |globals| == |PausedGlobally(writes, names)|
  {
    var paused := PausedGlobally(writes, names);
    forall p | p in globals
      ensures exists n :: n in paused && Features.Probe(n, None) == p
    {
      assert p == Features.Probe(p.feature, None) && p.feature in paused;
    }
    ImageSize(paused, n => Features.Probe(n, None), globals);
  }

  lemma HandlersPaused(read: Features.Reader, writes: seq<Write<bool>>, names: seq<string>,
                       handlers: map<string, Address>, others: set<Features.Probe>)
    requires ReadsLastWrites(read, writes, names, handlers)
    requires forall p :: p in others <==>
      p.handler.Some? && p.feature in names && p.handler.value in handlers && Features.On(read, p)
    ensures |others| == |PausedOn(writes, names, handlers)|
  {
    var paused := PausedOn(writes, names, handlers);
    forall p | p in others
      ensures exists k :: k in paused && Features.Probe(k.0, Some(k.1)) == p
    {
      var k := (p.feature, p.handler.value);
      assert p == Features.Probe(k.0, Some(k.1)) && k in paused;
    }
    ImageSize(paused, (k: (string, string)) => Features.Probe(k.0, Some(k.1)), others);
  }

  // ---------- funding fees ----------

  /** Long and short side of a market are the values last written for it with isLong true and false. */
  lemma SidesReadLastWrites(H: HashFn, c: Chain, world: World, vc: VersionConfig, writes: seq<Write<int256>>,
                            market: string)
    requires Serves(c, world) && SelectorsDiffer(c.sel) && vc.dataStore in world && world[vc.dataStore].DataStore?
    requires world[vc.dataStore].ints == Storage(H, writes) && market in vc.markets
    requires HashSeparates(H, FundingFeeAmountPerSize(vc.markets[market], vc.usdt, true), writes)
    requires HashSeparates(H, FundingFeeAmountPerSize(vc.markets[market], vc.usdt, false), writes)
    ensures Funding.SideReader(H, c, vc)(market)
         == Funding.Sides(Ok(LastWritten(writes, FundingFeeAmountPerSize(vc.markets[market], vc.usdt, true), 0)),
                          Ok(LastWritten(writes, FundingFeeAmountPerSize(vc.markets[market], vc.usdt, false), 0)))
  {
    SideReadsBack(H, c, world, vc.dataStore, FundingFeeAmountPerSize(vc.markets[market], vc.usdt, true), writes);
    SideReadsBack(H, c, world, vc.dataStore, FundingFeeAmountPerSize(vc.markets[market], vc.usdt, false), writes);
  }

  lemma SideReadsBack(H: HashFn, c: Chain, world: World, ds: Address, k: Key, writes: seq<Write<int256>>)
    requires Serves(c, world) && SelectorsDiffer(c.sel) && ds in world && world[ds].DataStore?
    requires world[ds].ints == Storage(H, writes) && HashSeparates(H, k, writes)
    ensures IntAt(c, ds, KeyOf(H, k)) == Ok(LastWritten(writes, k, 0))
  {
    IntReadAgrees(c, world, ds, KeyOf(H, k));
    StorageReadsBack(H, writes, k, 0);
  }

  /** And the gauges labelled long and short hold those values. */
  lemma SideGaugesAreLastWritten(H: HashFn, c: Chain, world: World, vc: VersionConfig, writes: seq<Write<int256>>,
                                 market: string, before: Funding.SideGauges, after: Funding.SideGauges)
    requires Serves(c, world) && SelectorsDiffer(c.sel) && vc.dataStore in world && world[vc.dataStore].DataStore?
    requires world[vc.dataStore].ints == Storage(H, writes) && market in vc.markets
    requires HashSeparates(H, FundingFeeAmountPerSize(vc.markets[market], vc.usdt, true), writes)
    requires HashSeparates(H, FundingFeeAmountPerSize(vc.markets[market], vc.usdt, false), writes)
    requires Funding.SidesSet(vc.name, ReadAll(vc.markets.Keys, Funding.SideReader(H, c, vc)), before, after)
    ensures (vc.name, market, "long") in after && (vc.name, market, "short") in after
    ensures after[(vc.name, market, "long")]
         == LastWritten(writes, FundingFeeAmountPerSize(vc.markets[market], vc.usdt, true), 0)
    ensures after[(vc.name, market, "short")]
         == LastWritten(writes, FundingFeeAmountPerSize(vc.markets[market], vc.usdt, false), 0)
  {
    SidesReadLastWrites(H, c, world, vc, writes, market);
    Funding.GaugesOf(vc.name, ReadAll(vc.markets.Keys, Funding.SideReader(H, c, vc)), before, after, market);
  }

  // ---------- roles ----------

  /** The holders last written for a role. */
  ghost function LastHolders(writes: seq<Write<seq<Address>>>, role: string): seq<Address> {
    LastWritten(writes, Root(Ascii(role)), [])
  }

  /** The reads of a role see the holders last written under the hash of its name. */
  lemma RoleReadsLastWrites(H: HashFn, c: Chain, world: World, rs: Address, writes: seq<Write<seq<Address>>>,
                            role: string)
    requires Serves(c, world) && SelectorsDiffer(c.sel) && rs in world && world[rs].RoleStore?
    requires world[rs].members == Storage(H, writes) && HashSeparates(H, Root(Ascii(role)), writes)
    requires |LastHolders(writes, role)| < TWO_64
    ensures Roles.Sees(Roles.RoleReads(c, rs, Roles.RoleHash(H)), role, LastHolders(writes, role))
  {
    StorageReadsBack(H, writes, Root(Ascii(role)), []);
    assert Roles.RoleHash(H)(role) == KeyOf(H, Root(Ascii(role)));
    Roles.RolesOverTheWire(c, world, rs, Roles.RoleHash(H), role);
  }

  /** So the task lists every role with the number of holders last written for it. */
  lemma RolesAreLastWritten(H: HashFn, c: Chain, world: World, rs: Address, writes: seq<Write<seq<Address>>>,
                            roles: seq<string>)
    requires Serves(c, world) && SelectorsDiffer(c.sel) && rs in world && world[rs].RoleStore?
    requires world[rs].members == Storage(H, writes)
    requires forall role :: role in roles ==>
      HashSeparates(H, Root(Ascii(role)), writes) && |LastHolders(writes, role)| < TWO_64
    ensures var v := Roles.VerdictOnAll(Roles.RoleReads(c, rs, Roles.RoleHash(H)), roles);
      && v.Said? && |v.lines| == |roles|
      && forall i :: 0 <= i < |roles| ==> v.lines[i] == Roles.Members(roles[i], |LastHolders(writes, roles[i])|)
  {
    var got := Roles.RoleReads(c, rs, Roles.RoleHash(H));
    forall role | role in roles
      ensures Roles.Sees(got, role, LastHolders(writes, role))
    {
      RoleReadsLastWrites(H, c, world, rs, writes, role);
    }
    Roles.VerdictOnAllSeen(got, roles, role => LastHolders(writes, role));
  }
}
