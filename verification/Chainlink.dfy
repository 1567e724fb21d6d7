/** The chainlink task: how old each price feed's last update is. */
module Chainlink {
  import opened Bytes
  import opened Wrappers
  import opened Client
  import opened Server
  import opened Metrics
  import opened Tallies

  datatype Line = Probed(feeds: nat, stale: nat)

  datatype Finding = Unread(feed: string, error: string)

  const STALE_AFTER := 600

  /** Seconds since the update, or zero for an update stamped in the future. */
  function Age(now: uint64, updatedAt: uint64): nat {
    if now > updatedAt then now - updatedAt else 0
  }

  function Findings(errors: map<string, string>): set<Finding> {
    set s | s in errors :: Unread(s, errors[s])
  }

  ghost function Stale(now: uint64, updates: map<string, uint64>): set<string> {
    set s | s in updates && Age(now, updates[s]) > STALE_AFTER
  }

  ghost predicate AgesSet(now: uint64, updates: map<string, uint64>, before: map<string, nat>,
                          after: map<string, nat>) {
    forall s: string ::
      if s in updates then s in after && after[s] == Age(now, updates[s])
      else (s in after <==> s in before) && (s in before ==> after[s] == before[s])
  }

  ghost predicate Progress(now: uint64, seen: map<string, Result<uint64>>, stale: nat, findings: seq<Finding>,
                           before: map<string, nat>, after: map<string, nat>)
  {
    && stale == |Stale(now, Values(seen))|
    && multiset(findings) == multiset(Findings(Errors(seen)))
    && AgesSet(now, Values(seen), before, after)
  }

  lemma FindingsWith(errors: map<string, string>, s: string, e: string)
    requires s !in errors
    ensures multiset(Findings(errors[s := e])) == multiset(Findings(errors)) + multiset{Unread(s, e)}
  {
    var more := errors[s := e];
    forall f
      ensures f in Findings(more) <==> f in Findings(errors) || f == Unread(s, e)
    {
      if x :| x in more && f == Unread(x, more[x]) {
        assert x == s || (x in errors && more[x] == errors[x]);
      }
      if x :| x in errors && f == Unread(x, errors[x]) {
        assert x in more && more[x] == errors[x];
      }
      assert s in more && more[s] == e;
    }
    assert Findings(more) == Findings(errors) + {Unread(s, e)};
    assert Unread(s, e) !in Findings(errors);
  }

  lemma NoProgressYet(now: uint64, before: map<string, nat>)
    ensures Progress(now, map[], 0, [], before, before)
  {
    var none: map<string, Result<uint64>> := map[];
    assert Values(none) == map[] && Errors(none) == map[];
  }

  lemma ProgressErr(now: uint64, seen: map<string, Result<uint64>>, stale: nat, findings: seq<Finding>,
                    before: map<string, nat>, after: map<string, nat>, s: string, e: string)
    requires Progress(now, seen, stale, findings, before, after) && s !in seen
    ensures Progress(now, seen[s := Err(e)], stale, findings + [Unread(s, e)], before, after)
  {
    SplitWith(seen, s, Err(e));
    FindingsWith(Errors(seen), s, e);
  }

  lemma StaleWith(now: uint64, updates: map<string, uint64>, s: string, updatedAt: uint64)
    requires s !in updates
    ensures |Stale(now, updates[s := updatedAt])|
        == |Stale(now, updates)| + if Age(now, updatedAt) > STALE_AFTER then 1 else 0
  {
    if Age(now, updatedAt) > STALE_AFTER {
      assert Stale(now, updates[s := updatedAt]) == Stale(now, updates) + {s};
    } else {
      assert Stale(now, updates[s := updatedAt]) == Stale(now, updates);
    }
  }

  lemma AgesWith(now: uint64, updates: map<string, uint64>, before: map<string, nat>, after: map<string, nat>,
                 s: string, updatedAt: uint64)
    requires AgesSet(now, updates, before, after)
    ensures AgesSet(now, updates[s := updatedAt], before, after[s := Age(now, updatedAt)])
  {
  }

  lemma ProgressOk(now: uint64, seen: map<string, Result<uint64>>, stale: nat, findings: seq<Finding>,
                   before: map<string, nat>, after: map<string, nat>, s: string, updatedAt: uint64)
    requires Progress(now, seen, stale, findings, before, after) && s !in seen
    ensures Progress(now, seen[s := Ok(updatedAt)], stale + (if Age(now, updatedAt) > STALE_AFTER then 1 else 0),
                     findings, before, after[s := Age(now, updatedAt)])
  {
    SplitWith(seen, s, Ok(updatedAt));
    StaleWith(now, Values(seen), s, updatedAt);
    AgesWith(now, Values(seen), before, after, s, updatedAt);
  }

  /** The loop of Run: the feeds are visited in any order. */
  method ProbeFeeds(m: Registry, feeds: set<string>, updatedAt: string -> Result<uint64>, now: uint64)
    returns (stale: nat, findings: seq<Finding>)
    modifies m`chainlinkFeedAge
    ensures Progress(now, ReadAll(feeds, updatedAt), stale, findings, old(m.chainlinkFeedAge), m.chainlinkFeedAge)
  {
    stale, findings := 0, [];
    var rest := feeds;
    ghost var before := m.chainlinkFeedAge;
    NothingRead(rest, updatedAt);
    NoProgressYet(now, before);
    while rest != {}
      invariant rest <= feeds
      invariant Progress(now, ReadAll(feeds - rest, updatedAt), stale, findings, before, m.chainlinkFeedAge)
      decreases |rest|
    {
      var feed :| feed in rest;
      ghost var seen := ReadAll(feeds - rest, updatedAt);
      ReadOneMore(feeds, rest, updatedAt, feed);
      rest := rest - {feed};
      stale, findings := ProbeFeed(m, feed, updatedAt(feed), now, stale, findings, seen, before);
    }
    AllRead(feeds, rest);
  }

  /** The loop body: r is what reading the feed returned. */
  method ProbeFeed(m: Registry, feed: string, r: Result<uint64>, now: uint64, stale0: nat, findings0: seq<Finding>,
                   ghost seen: map<string, Result<uint64>>, ghost before: map<string, nat>)
    returns (stale: nat, findings: seq<Finding>)
    requires Progress(now, seen, stale0, findings0, before, m.chainlinkFeedAge) && feed !in seen
    modifies m`chainlinkFeedAge
    ensures Progress(now, seen[feed := r], stale, findings, before, m.chainlinkFeedAge)
  {
    stale, findings := stale0, findings0;
    if r.Err? {
      ProgressErr(now, seen, stale, findings, before, m.chainlinkFeedAge, feed, r.error);
      findings := findings + [Unread(feed, r.error)];
      return;
    }
    ProgressOk(now, seen, stale, findings, before, m.chainlinkFeedAge, feed, r.value);
    var age := 0;
    if now > r.value {
      age := now - r.value;
    }
    m.chainlinkFeedAge := m.chainlinkFeedAge[feed := age];
    if age > 600 {
      stale := stale + 1;
    }
  }

  /** Only the version named v1 probes the feeds, which are the same for all versions. */
  method Run(m: Registry, version: string, feeds: set<string>, updatedAt: string -> Result<uint64>, now: uint64)
    returns (lines: seq<Line>, findings: seq<Finding>)
    modifies m`chainlinkFeedAge, m`lastRun
    ensures version != "v1" ==> lines == [] && findings == [] && unchanged(m)
    ensures version == "v1" ==>
      && |lines| == 1 && lines[0].feeds == |feeds| && m.lastRun == old(m.lastRun)["chainlink" := now]
      && Progress(now, ReadAll(feeds, updatedAt), lines[0].stale, findings, old(m.chainlinkFeedAge), m.chainlinkFeedAge)
  {
    lines, findings := [], [];
    if version != "v1" {
      return;
    }
    var stale, unread := ProbeFeeds(m, feeds, updatedAt, now);
    lines, findings := [Probed(|feeds|, stale)], unread;
    m.lastRun := m.lastRun["chainlink" := now];
  }

  /** A feed counts as stale exactly if the clock is more than ten minutes past its update. */
  lemma StaleMeans(now: uint64, updates: map<string, uint64>, s: string)
    requires s in updates
    ensures s in Stale(now, updates) <==> now > updates[s] + STALE_AFTER
  {
  }

  // ---------- what is reported, spelled out ----------

  /** Every feed that cannot be read is reported with its error, and no other. */
  lemma UnreadFeedsReported(seen: map<string, Result<uint64>>, findings: seq<Finding>)
    requires multiset(findings) == multiset(Findings(Errors(seen)))
    ensures forall s, e :: Unread(s, e) in findings <==> s in seen && seen[s] == Err(e)
  {
    SameMembers(findings, multiset(Findings(Errors(seen))));
    forall s, e
      ensures Unread(s, e) in findings <==> s in seen && seen[s] == Err(e)
    {
      assert Unread(s, e) in findings <==> Unread(s, e) in Findings(Errors(seen));
      assert s in Errors(seen) ==> Unread(s, Errors(seen)[s]) in Findings(Errors(seen));
    }
  }

  /**
    The age gauge makes up the time since the update and is never negative; the stale count is the number of feeds whose
    gauge is above 600.
   */
  lemma AgesShown(now: uint64, updates: map<string, uint64>, before: map<string, nat>, after: map<string, nat>)
    requires AgesSet(now, updates, before, after)
    ensures forall s :: s in updates ==>
      s in after && (updates[s] <= now ==> updates[s] + after[s] == now) && (updates[s] >= now ==> after[s] == 0)
    ensures Stale(now, updates) == set s | s in updates && s in after && after[s] > 600
  {
  }

  /** The update reader of a client: one latestRoundData per configured feed. */
  function UpdateReader(c: Chain, feeds: map<string, Address>): string -> Result<uint64> {
    feed => if feed in feeds then UpdatedAt(c, feeds[feed]) else Ok(0)
  }

  ghost predicate FeedsIn(world: World, feeds: map<string, Address>) {
    forall s :: s in feeds ==> feeds[s] in world && world[feeds[s]].Feed?
  }

  /** Against a node that serves the feeds, every one is read, and its update is the fourth word of its round tuple. */
  lemma FeedsOverTheWire(c: Chain, world: World, feeds: map<string, Address>)
    requires Serves(c, world) && FeedsIn(world, feeds)
    ensures var got := ReadAll(feeds.Keys, UpdateReader(c, feeds));
      && Errors(got) == map[]
      && Values(got) == map s | s in feeds :: world[feeds[s]].updatedAt % TWO_64
  {
    var got := ReadAll(feeds.Keys, UpdateReader(c, feeds));
    var stored := map s | s in feeds :: world[feeds[s]].updatedAt % TWO_64;
    forall s | s in got
      ensures got[s] == Ok(stored[s])
    {
      FeedReadAgrees(c, world, feeds[s]);
    }
    AllOk(got, stored);
  }

  /** The feeds whose stored update is too long ago. */
  ghost function StoredStale(world: World, feeds: map<string, Address>, now: uint64): set<string>
    requires FeedsIn(world, feeds)
  {
    set s | s in feeds && now > world[feeds[s]].updatedAt % TWO_64 + STALE_AFTER
  }

  /** So a run there reports no finding, and its count is the number of those feeds. */
  lemma RunOverTheWire(c: Chain, world: World, feeds: map<string, Address>, now: uint64, stale: nat,
                       findings: seq<Finding>, before: map<string, nat>, after: map<string, nat>)
    requires Serves(c, world) && FeedsIn(world, feeds)
    requires Progress(now, ReadAll(feeds.Keys, UpdateReader(c, feeds)), stale, findings, before, after)
    ensures findings == [] && stale == |StoredStale(world, feeds, now)|
  {
    FeedsOverTheWire(c, world, feeds);
    CountsOf(now, ReadAll(feeds.Keys, UpdateReader(c, feeds)), stale, findings, before, after);
    StaleIsStored(world, feeds, now);
  }

  lemma CountsOf(now: uint64, seen: map<string, Result<uint64>>, stale: nat, findings: seq<Finding>,
                 before: map<string, nat>, after: map<string, nat>)
    requires Progress(now, seen, stale, findings, before, after)
    ensures stale == |Stale(now, Values(seen))|
    ensures Errors(seen) == map[] ==> findings == []
  {
    assert |findings| == |multiset(findings)|;
  }

  lemma StaleIsStored(world: World, feeds: map<string, Address>, now: uint64)
    requires FeedsIn(world, feeds)
    ensures Stale(now, map s | s in feeds :: world[feeds[s]].updatedAt % TWO_64) == StoredStale(world, feeds, now)
  {
  }
}
