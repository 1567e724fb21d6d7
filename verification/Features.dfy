/** The features task: pause flags, probed globally and per handler. */
module Features {
  import opened Bytes
  import opened Wrappers
  import opened Keys
  import opened Client
  import opened Server
  import opened Config
  import opened Metrics
  import opened Tallies

  const FEATURE_NAMES := [
    "CREATE_DEPOSIT_FEATURE_DISABLED",
    "CANCEL_DEPOSIT_FEATURE_DISABLED",
    "EXECUTE_DEPOSIT_FEATURE_DISABLED",
    "CREATE_WITHDRAWAL_FEATURE_DISABLED",
    "CANCEL_WITHDRAWAL_FEATURE_DISABLED",
    "EXECUTE_WITHDRAWAL_FEATURE_DISABLED",
    "CREATE_ORDER_FEATURE_DISABLED",
    "UPDATE_ORDER_FEATURE_DISABLED",
    "CANCEL_ORDER_FEATURE_DISABLED",
    "EXECUTE_ORDER_FEATURE_DISABLED",
    "EXECUTE_ADL_FEATURE_DISABLED",
    "CLAIM_FUNDING_FEES_FEATURE_DISABLED",
    "CLAIM_COLLATERAL_FEATURE_DISABLED"]

  const ROOT := "root"

  /** One flag read: globally, or for a configured handler. */
  datatype Probe = Probe(feature: string, handler: Option<string>)

  datatype Line = Probed(names: nat, handlers: nat, disabled: nat)

  datatype Finding = Unread(probe: Probe, error: string) | Disabled(probe: Probe, version: string)

  type Reader = Probe -> Result<bool>

  /** The gauge label of a probe; a handler that is itself named root shares the global probe's label. */
  function Label(p: Probe): string {
    if p.handler.Some? then p.handler.value else ROOT
  }

  predicate On(read: Reader, p: Probe) {
    read(p) == Ok(true)
  }

  /** What a probe reports, if anything. */
  function FindingOf(read: Reader, version: string, p: Probe): Option<Finding> {
    if read(p).Err? then Some(Unread(p, read(p).error))
    else if read(p).value then Some(Disabled(p, version))
    else None
  }

  /** All probes of a run. */
  ghost function Probes(names: seq<string>, handlers: set<string>): set<Probe> {
    if names == [] then {} else
      Probes(names[..|names| - 1], handlers) + ProbesOf(names[|names| - 1], handlers)
  }

  ghost function ProbesOf(name: string, handlers: set<string>): set<Probe> {
    {Probe(name, None)} + set h | h in handlers :: Probe(name, Some(h))
  }

  // ---------- what a set of probes amounts to ----------

  ghost function Ons(read: Reader, ps: set<Probe>): set<Probe> {
    set p | p in ps && On(read, p)
  }

  ghost function Findings(read: Reader, version: string, ps: set<Probe>): set<Finding> {
    set p | p in ps && FindingOf(read, version, p).Some? :: FindingOf(read, version, p).value
  }

  /** A global probe whose label a handler named root has taken over. */
  ghost predicate Shadowed(read: Reader, ps: set<Probe>, p: Probe) {
    p.handler.None? && Probe(p.feature, Some(ROOT)) in ps && read(Probe(p.feature, Some(ROOT))).Ok?
  }

  /** The probes whose value is in a gauge at the end. */
  ghost predicate Showing(read: Reader, ps: set<Probe>, p: Probe) {
    p in ps && read(p).Ok? && !Shadowed(read, ps, p)
  }

  type Labels = (string, string, string)
  type Gauges = map<Labels, nat>

  /** The gauge vector and the history of its Set calls. */
  datatype Trace = Trace(gauges: Gauges, sets: seq<Labels>)

  ghost function TraceOf(m: Registry): Trace
    reads m`featureDisabled, m`featureSets
  {
    Trace(m.featureDisabled, m.featureSets)
  }

  function LabelsOf(version: string, p: Probe): Labels {
    (version, p.feature, Label(p))
  }

  function AfterSet(t: Trace, k: Labels, value: nat): Trace {
    Trace(t.gauges[k := value], t.sets + [k])
  }

  /** The gauges show exactly these probes' values; every other gauge is as before. */
  ghost predicate GaugesShow(read: Reader, version: string, ps: set<Probe>, before: Gauges, after: Gauges) {
    && before.Keys <= after.Keys
    && (forall p :: Showing(read, ps, p) ==>
          LabelsOf(version, p) in after && after[LabelsOf(version, p)] == if On(read, p) then 1 else 0)
    && forall v: string, f: string, l: string ::
         (v, f, l) in after ==>
           || (v == version && exists p :: Showing(read, ps, p) && p.feature == f && Label(p) == l)
           || ((v, f, l) in before && after[(v, f, l)] == before[(v, f, l)])
  }

  ghost function Answered(read: Reader, ps: set<Probe>): set<Probe> {
    set p | p in ps && read(p).Ok?
  }

  /** There was one Set call for each of these probes that was answered, on its own labels. */
  ghost predicate SetsAre(read: Reader, version: string, ps: set<Probe>, before: seq<Labels>, after: seq<Labels>) {
    && before <= after
    && |after| == |before| + |Answered(read, ps)|
    && (forall p :: p in Answered(read, ps) ==> LabelsOf(version, p) in after[|before|..])
    && forall k :: k in after[|before|..] ==> exists p :: p in Answered(read, ps) && LabelsOf(version, p) == k
  }

  ghost predicate Progress(read: Reader, version: string, ps: set<Probe>, disabled: nat, findings: seq<Finding>,
                           before: Trace, after: Trace)
  {
    && disabled == |Ons(read, ps)|
    && multiset(findings) == multiset(Findings(read, version, ps))
    && GaugesShow(read, version, ps, before.gauges, after.gauges)
    && SetsAre(read, version, ps, before.sets, after.sets)
  }

  lemma FindingsWith(read: Reader, version: string, ps: set<Probe>, p: Probe)
    requires p !in ps
    ensures multiset(Findings(read, version, ps + {p})) == multiset(Findings(read, version, ps))
      + if FindingOf(read, version, p).Some? then multiset{FindingOf(read, version, p).value} else multiset{}
  {
    var more, less := Findings(read, version, ps + {p}), Findings(read, version, ps);
    if FindingOf(read, version, p).Some? {
      var f := FindingOf(read, version, p).value;
      assert f !in less;
      assert more == less + {f};
    } else {
      assert more == less;
    }
  }

  lemma OnsWith(read: Reader, ps: set<Probe>, p: Probe)
    requires p !in ps
    ensures |Ons(read, ps + {p})| == |Ons(read, ps)| + if On(read, p) then 1 else 0
  {
    if On(read, p) {
      assert Ons(read, ps + {p}) == Ons(read, ps) + {p};
    } else {
      assert Ons(read, ps + {p}) == Ons(read, ps);
    }
  }

  /** The global probe of a feature comes before its handlers' probes. */
  ghost predicate GlobalFirst(ps: set<Probe>, p: Probe) {
    p !in ps && (p.handler.None? ==> forall h :: Probe(p.feature, Some(h)) !in ps)
  }

  lemma GaugesWith(read: Reader, version: string, ps: set<Probe>, p: Probe, before: Gauges, gauges: Gauges)
    requires GaugesShow(read, version, ps, before, gauges) && GlobalFirst(ps, p)
    ensures GaugesShow(read, version, ps + {p}, before,
      if read(p).Ok? then gauges[LabelsOf(version, p) := if read(p).value then 1 else 0] else gauges)
  {
    var more := ps + {p};
    var after := if read(p).Ok? then gauges[LabelsOf(version, p) := if read(p).value then 1 else 0] else gauges;
    forall q | Showing(read, more, q)
      ensures LabelsOf(version, q) in after && after[LabelsOf(version, q)] == if On(read, q) then 1 else 0
    {
      if q != p {
        assert Showing(read, ps, q);
        assert q.feature == p.feature && Label(q) == Label(p) ==> !read(p).Ok?;
      }
    }
    forall v: string, f: string, l: string | (v, f, l) in after
      ensures (v == version && exists q :: Showing(read, more, q) && q.feature == f && Label(q) == l)
           || ((v, f, l) in before && after[(v, f, l)] == before[(v, f, l)])
    {
      if read(p).Ok? && (v, f, l) == (version, p.feature, Label(p)) {
        assert Showing(read, more, p);
      } else {
        assert (v, f, l) in gauges && gauges[(v, f, l)] == after[(v, f, l)];
        if v == version && exists q :: Showing(read, ps, q) && q.feature == f && Label(q) == l {
          var q :| Showing(read, ps, q) && q.feature == f && Label(q) == l;
          assert Showing(read, more, q);
        }
      }
    }
  }

  lemma SetsWith(read: Reader, version: string, ps: set<Probe>, p: Probe, before: seq<Labels>, sets: seq<Labels>)
    requires SetsAre(read, version, ps, before, sets) && p !in ps
    ensures SetsAre(read, version, ps + {p}, before, if read(p).Ok? then sets + [LabelsOf(version, p)] else sets)
  {
    var less, more := Answered(read, ps), Answered(read, ps + {p});
    if read(p).Ok? {
      assert more == less + {p};
      assert (sets + [LabelsOf(version, p)])[|before|..] == sets[|before|..] + [LabelsOf(version, p)];
    } else {
      assert more == less;
    }
  }

  lemma ProgressWith(read: Reader, version: string, ps: set<Probe>, p: Probe, disabled: nat, findings: seq<Finding>,
                     before: Trace, after: Trace)
    requires Progress(read, version, ps, disabled, findings, before, after) && GlobalFirst(ps, p)
    ensures read(p).Err? ==>
      Progress(read, version, ps + {p}, disabled, findings + [Unread(p, read(p).error)], before, after)
    ensures read(p) == Ok(false) ==>
      Progress(read, version, ps + {p}, disabled, findings, before, AfterSet(after, LabelsOf(version, p), 0))
    ensures read(p) == Ok(true) ==>
      Progress(read, version, ps + {p}, disabled + 1, findings + [Disabled(p, version)], before,
               AfterSet(after, LabelsOf(version, p), 1))
  {
    FindingsWith(read, version, ps, p);
    OnsWith(read, ps, p);
    GaugesWith(read, version, ps, p, before.gauges, after.gauges);
    SetsWith(read, version, ps, p, before.sets, after.sets);
  }

  // ---------- the accounts agree ----------

  lemma {:induction false} HandlerProbes(name: string, handlers: set<string>)
    ensures |ProbesOf(name, handlers)| == |handlers| + 1
    decreases |handlers|
  {
    if handlers == {} {
      assert ProbesOf(name, handlers) == {Probe(name, None)};
    } else {
      var h :| h in handlers;
      HandlerProbes(name, handlers - {h});
      assert ProbesOf(name, handlers) == ProbesOf(name, handlers - {h}) + {Probe(name, Some(h))};
    }
  }

  /** Every feature is probed once globally and once per handler. */
  lemma {:induction false} ProbeCount(names: seq<string>, handlers: set<string>)
    requires Distinct(names)
    ensures |Probes(names, handlers)| == |names| * (|handlers| + 1)
  {
    if names != [] {
      var n := |names| - 1;
      ProbeCount(names[..n], handlers);
      HandlerProbes(names[n], handlers);
      assert names[..n + 1] == names;
      NextName(names, handlers, n);
      DisjointSize(Probes(names[..n], handlers), ProbesOf(names[n], handlers));
      OneMore(n, |handlers| + 1);
    }
  }

  lemma DisjointSize<T>(a: set<T>, b: set<T>)
    requires a !! b
    ensures |a + b| == |a| + |b|
  {
  }

  lemma OneMore(n: nat, k: nat)
    ensures (n + 1) * k == n * k + k
  {
  }

  ghost function Failed(read: Reader, ps: set<Probe>): set<Probe> {
    set p | p in ps && read(p).Err?
  }

  predicate IsUnread(f: Finding) {
    f.Unread?
  }

  predicate IsDisabled(f: Finding) {
    f.Disabled?
  }

  lemma UnreadFindings(read: Reader, version: string, ps: set<Probe>, findings: seq<Finding>)
    requires multiset(findings) == multiset(Findings(read, version, ps))
    ensures CountIf(findings, IsUnread) == |Failed(read, ps)|
  {
    var fs := set f | f in Findings(read, version, ps) && f.Unread?;
    forall f | f in fs
      ensures exists p :: p in Failed(read, ps) && Unread(p, read(p).error) == f
    {
      var p :| p in ps && FindingOf(read, version, p) == Some(f);
      assert p in Failed(read, ps);
    }
    forall p | p in Failed(read, ps)
      ensures Unread(p, read(p).error) in fs
    {
      assert FindingOf(read, version, p) == Some(Unread(p, read(p).error));
    }
    ImageSize(Failed(read, ps), (p: Probe) => if read(p).Err? then Unread(p, read(p).error) else Unread(p, ""), fs);
    CountListed(findings, Findings(read, version, ps), IsUnread, fs);
  }

  lemma DisabledFindings(read: Reader, version: string, ps: set<Probe>, findings: seq<Finding>)
    requires multiset(findings) == multiset(Findings(read, version, ps))
    ensures CountIf(findings, IsDisabled) == |Ons(read, ps)|
  {
    var fs := set f | f in Findings(read, version, ps) && f.Disabled?;
    forall f | f in fs
      ensures exists p :: p in Ons(read, ps) && Disabled(p, version) == f
    {
      var p :| p in ps && FindingOf(read, version, p) == Some(f);
      assert p in Ons(read, ps);
    }
    forall p | p in Ons(read, ps)
      ensures Disabled(p, version) in fs
    {
      assert FindingOf(read, version, p) == Some(Disabled(p, version));
    }
    ImageSize(Ons(read, ps), p => Disabled(p, version), fs);
    CountListed(findings, Findings(read, version, ps), IsDisabled, fs);
  }

  /** Set calls and read errors make up so many probes, and the count is that of the disabled findings. */
  ghost predicate AddsUp(probes: nat, disabled: nat, findings: seq<Finding>, before: Trace, after: Trace) {
    && |after.sets| - |before.sets| + CountIf(findings, IsUnread) == probes
    && CountIf(findings, IsDisabled) == disabled
  }

  /**
    What a run leaves adds up: Set calls and read errors in the list make up all probes, and the reported count is the
    number of disabled findings in the list.
   */
  lemma ProbesAccountedFor(read: Reader, version: string, names: seq<string>, handlers: set<string>, disabled: nat,
                           findings: seq<Finding>, before: Trace, after: Trace)
    requires Distinct(names) && Progress(read, version, Probes(names, handlers), disabled, findings, before, after)
    ensures AddsUp(|names| * (|handlers| + 1), disabled, findings, before, after)
  {
    ProbeCount(names, handlers);
    ProbesAddUp(read, version, Probes(names, handlers), disabled, findings, before, after);
  }

  lemma ProbesAddUp(read: Reader, version: string, ps: set<Probe>, disabled: nat, findings: seq<Finding>,
                    before: Trace, after: Trace)
    requires Progress(read, version, ps, disabled, findings, before, after)
    ensures AddsUp(|ps|, disabled, findings, before, after)
  {
    UnreadFindings(read, version, ps, findings);
    DisabledFindings(read, version, ps, findings);
    AnsweredOrFailed(read, ps);
  }

  lemma AnsweredOrFailed(read: Reader, ps: set<Probe>)
    ensures |Answered(read, ps)| + |Failed(read, ps)| == |ps|
  {
    DisjointSize(Answered(read, ps), Failed(read, ps));
    assert Answered(read, ps) + Failed(read, ps) == ps;
  }

  /** Each read error and each flag that is on is in the findings list once, and nothing else is. */
  lemma FindingsReported(read: Reader, version: string, ps: set<Probe>, findings: seq<Finding>)
    requires multiset(findings) == multiset(Findings(read, version, ps))
    ensures forall p, e :: Unread(p, e) in findings <==> p in ps && read(p) == Err(e)
    ensures forall p, v :: Disabled(p, v) in findings <==> p in ps && v == version && read(p) == Ok(true)
    ensures forall f :: f in findings ==> multiset(findings)[f] == 1
  {
    SameMembers(findings, multiset(Findings(read, version, ps)));
    forall p, e
      ensures Unread(p, e) in findings <==> p in ps && read(p) == Err(e)
    {
      assert Unread(p, e) in findings <==> Unread(p, e) in Findings(read, version, ps);
      assert p in ps && read(p) == Err(e) ==> FindingOf(read, version, p) == Some(Unread(p, e));
    }
    forall p, v
      ensures Disabled(p, v) in findings <==> p in ps && v == version && read(p) == Ok(true)
    {
      assert Disabled(p, v) in findings <==> Disabled(p, v) in Findings(read, version, ps);
      assert p in ps && read(p) == Ok(true) ==> FindingOf(read, version, p) == Some(Disabled(p, version));
    }
  }

  /** A handler's flag is in the gauge with its name. */
  lemma HandlerGauge(read: Reader, version: string, ps: set<Probe>, before: Gauges, after: Gauges, name: string,
                     h: string, on: bool)
    requires GaugesShow(read, version, ps, before, after)
    requires Probe(name, Some(h)) in ps && read(Probe(name, Some(h))) == Ok(on)
    ensures (version, name, h) in after && after[(version, name, h)] == if on then 1 else 0
  {
    assert Showing(read, ps, Probe(name, Some(h)));
    assert LabelsOf(version, Probe(name, Some(h))) == (version, name, h);
  }

  /** A global flag is in the gauge named root, unless a handler of that name was read. */
  lemma GlobalGauge(read: Reader, version: string, ps: set<Probe>, before: Gauges, after: Gauges, name: string,
                    on: bool)
    requires GaugesShow(read, version, ps, before, after)
    requires Probe(name, None) in ps && read(Probe(name, None)) == Ok(on)
    requires Probe(name, Some("root")) in ps ==> read(Probe(name, Some("root"))).Err?
    ensures (version, name, "root") in after && after[(version, name, "root")] == if on then 1 else 0
  {
    assert Showing(read, ps, Probe(name, None));
    assert LabelsOf(version, Probe(name, None)) == (version, name, "root");
  }

  // ---------- gauges that two probes share ----------

  /** The gauges a run wrote. */
  ghost function Written(before: Trace, after: Trace): set<Labels>
    requires |before.sets| <= |after.sets|
  {
    set k | k in after.sets[|before.sets|..]
  }

  /** Those of them that it left at 1. */
  ghost function WrittenAtOne(before: Trace, after: Trace): set<Labels>
    requires |before.sets| <= |after.sets|
  {
    set k | k in Written(before, after) && k in after.gauges && after.gauges[k] == 1
  }

  /** The features whose global flag and whose handler named root were both read. */
  ghost function Overwritten(read: Reader, names: seq<string>, handlers: set<string>): set<string> {
    set n | n in names && ROOT in handlers && read(Probe(n, None)).Ok? && read(Probe(n, Some(ROOT))).Ok?
  }

  /** Those of them whose global flag is on. */
  ghost function Masked(read: Reader, names: seq<string>, handlers: set<string>): set<string> {
    set n | n in Overwritten(read, names, handlers) && On(read, Probe(n, None))
  }

  lemma {:induction false} NameIsProbed(names: seq<string>, handlers: set<string>, name: string)
    requires name in names
    ensures ProbesOf(name, handlers) <= Probes(names, handlers)
  {
    var n := |names| - 1;
    if names[n] != name {
      NameIsProbed(names[..n], handlers, name);
    }
  }

  ghost function Shown(read: Reader, ps: set<Probe>, some: set<Probe>): set<Probe> {
    set p | p in some && Showing(read, ps, p)
  }

  /** Among answered probes, the ones not showing are the global ones of overwritten features. */
  lemma ShownAndShadowed(read: Reader, names: seq<string>, handlers: set<string>, some: set<Probe>, hidden: set<string>)
    requires some <= Answered(read, Probes(names, handlers))
    requires forall n :: n in hidden <==> n in Overwritten(read, names, handlers) && Probe(n, None) in some
    ensures |Shown(read, Probes(names, handlers), some)| + |hidden| == |some|
  {
    var ps := Probes(names, handlers);
    var shown := Shown(read, ps, some);
    var others := some - shown;
    ProbesAreOfNames(names, handlers);
    forall n | n in hidden
      ensures Probe(n, None) in others
    {
      NameIsProbed(names, handlers, n);
      assert Probe(n, Some(ROOT)) in ProbesOf(n, handlers);
      assert Shadowed(read, ps, Probe(n, None));
    }
    forall p | p in others
      ensures exists n :: n in hidden && Probe(n, None) == p
    {
      assert Shadowed(read, ps, p);
      assert p.feature in hidden && Probe(p.feature, None) == p;
    }
    ImageSize(hidden, n => Probe(n, None), others);
    DisjointSize(shown, others);
    assert shown + others == some;
  }

  lemma LabelsOfShown(read: Reader, version: string, ps: set<Probe>, some: set<Probe>, keys: set<Labels>)
    requires forall p :: p in some ==> Showing(read, ps, p) && LabelsOf(version, p) in keys
    requires forall k :: k in keys ==> exists p :: p in some && LabelsOf(version, p) == k
    ensures |keys| == |some|
  {
    ImageSize(some, p => LabelsOf(version, p), keys);
  }

  /** Every written gauge shows the value of some probe. */
  lemma WrittenIsShown(read: Reader, version: string, ps: set<Probe>, before: Trace, after: Trace, k: Labels)
    returns (p: Probe)
    requires SetsAre(read, version, ps, before.sets, after.sets) && k in Written(before, after)
    ensures Showing(read, ps, p) && LabelsOf(version, p) == k
  {
    p :| p in Answered(read, ps) && LabelsOf(version, p) == k;
    if Shadowed(read, ps, p) {
      p := Probe(p.feature, Some(ROOT));
    }
  }

  /** The gauges written number one less than the Set calls for each feature whose global flag was overwritten. */
  lemma WrittenGauges(read: Reader, version: string, names: seq<string>, handlers: set<string>, disabled: nat,
                      findings: seq<Finding>, before: Trace, after: Trace)
    requires Progress(read, version, Probes(names, handlers), disabled, findings, before, after)
    ensures |Written(before, after)| + |Overwritten(read, names, handlers)| == |after.sets| - |before.sets|
  {
    var ps := Probes(names, handlers);
    var shown := Shown(read, ps, Answered(read, ps));
    forall n | n in Overwritten(read, names, handlers)
      ensures Probe(n, None) in Answered(read, ps)
    {
      NameIsProbed(names, handlers, n);
      assert Probe(n, None) in ProbesOf(n, handlers);
    }
    ShownAndShadowed(read, names, handlers, Answered(read, ps), Overwritten(read, names, handlers));
    forall k | k in Written(before, after)
      ensures exists p :: p in shown && LabelsOf(version, p) == k
    {
      var p := WrittenIsShown(read, version, ps, before, after, k);
      assert p in shown;
    }
    LabelsOfShown(read, version, ps, shown, Written(before, after));
  }

  /** So gauges written and read errors make up all probes exactly when no global flag was overwritten. */
  lemma GaugesAccountedFor(read: Reader, version: string, names: seq<string>, handlers: set<string>, disabled: nat,
                           findings: seq<Finding>, before: Trace, after: Trace)
    requires Distinct(names) && Progress(read, version, Probes(names, handlers), disabled, findings, before, after)
    ensures |Written(before, after)| + CountIf(findings, IsUnread) == |names| * (|handlers| + 1)
       <==> Overwritten(read, names, handlers) == {}
  {
    ProbesAccountedFor(read, version, names, handlers, disabled, findings, before, after);
    WrittenGauges(read, version, names, handlers, disabled, findings, before, after);
    Deficit(|Written(before, after)|, Overwritten(read, names, handlers), |after.sets| - |before.sets|);
  }

  lemma Deficit<T>(n: nat, missing: set<T>, total: int)
    requires n + |missing| == total
    ensures n == total <==> missing == {}
  {
  }

  /** The disabled count exceeds the gauges left at 1 by the flags that were on but overwritten. */
  lemma DisabledGauges(read: Reader, version: string, names: seq<string>, handlers: set<string>, disabled: nat,
                       findings: seq<Finding>, before: Trace, after: Trace)
    requires Progress(read, version, Probes(names, handlers), disabled, findings, before, after)
    ensures |WrittenAtOne(before, after)| + |Masked(read, names, handlers)| == disabled
    ensures |WrittenAtOne(before, after)| == disabled <==> Masked(read, names, handlers) == {}
  {
    var ps := Probes(names, handlers);
    var shown := Shown(read, ps, Ons(read, ps));
    forall n | n in Masked(read, names, handlers)
      ensures Probe(n, None) in Ons(read, ps)
    {
      NameIsProbed(names, handlers, n);
      assert Probe(n, None) in ProbesOf(n, handlers);
    }
    ShownAndShadowed(read, names, handlers, Ons(read, ps), Masked(read, names, handlers));
    forall k | k in WrittenAtOne(before, after)
      ensures exists p :: p in shown && LabelsOf(version, p) == k
    {
      var p := WrittenIsShown(read, version, ps, before, after, k);
      assert p in shown;
    }
    LabelsOfShown(read, version, ps, shown, WrittenAtOne(before, after));
    Deficit(|WrittenAtOne(before, after)|, Masked(read, names, handlers), disabled);
  }

  // ---------- the run ----------

  lemma {:induction false} ProbesAreOfNames(names: seq<string>, handlers: set<string>)
    ensures forall p :: p in Probes(names, handlers) ==> p.feature in names
    ensures forall p :: p in Probes(names, handlers) && p.handler.Some? ==> p.handler.value in handlers
  {
    if names != [] {
      ProbesAreOfNames(names[..|names| - 1], handlers);
    }
  }

  /** The probes of one feature once some handlers are done. */
  ghost function Partly(done: set<Probe>, name: string, handlers: set<string>): set<Probe> {
    done + ProbesOf(name, handlers)
  }

  lemma NextName(names: seq<string>, handlers: set<string>, i: nat)
    requires Distinct(names) && i < |names|
    ensures Probes(names[..i + 1], handlers) == Partly(Probes(names[..i], handlers), names[i], handlers)
    ensures forall p :: p in Probes(names[..i], handlers) ==> p.feature != names[i]
  {
    assert names[..i + 1][..i] == names[..i];
    ProbesAreOfNames(names[..i], handlers);
  }

  lemma PartlyWith(done: set<Probe>, name: string, handlers: set<string>, h: string)
    requires h !in handlers && forall p :: p in done ==> p.feature != name
    ensures Partly(done, name, handlers + {h}) == Partly(done, name, handlers) + {Probe(name, Some(h))}
    ensures GlobalFirst(Partly(done, name, handlers), Probe(name, Some(h)))
  {
  }

  lemma NoHandlersYet(done: set<Probe>, name: string)
    requires forall p :: p in done ==> p.feature != name
    ensures Partly(done, name, {}) == done + {Probe(name, None)} && GlobalFirst(done, Probe(name, None))
  {
  }

  /**
    One probe: the body of the handler loop, and likewise what comes before that loop for the global flag. ps holds the
    probes made before.
   */
  method ProbeOne(m: Registry, read: Reader, version: string, p: Probe, ghost ps: set<Probe>, disabled0: nat,
                  findings0: seq<Finding>, ghost before: Trace)
    returns (disabled: nat, findings: seq<Finding>)
    requires Progress(read, version, ps, disabled0, findings0, before, TraceOf(m)) && GlobalFirst(ps, p)
    modifies m`featureDisabled, m`featureSets
    ensures Progress(read, version, ps + {p}, disabled, findings, before, TraceOf(m))
  {
    disabled, findings := disabled0, findings0;
    ProgressWith(read, version, ps, p, disabled, findings, before, TraceOf(m));
    var r := read(p);
    if r.Err? {
      findings := findings + [Unread(p, r.error)];
      return;
    }
    var val := 0;
    if r.value {
      val := 1;
      disabled := disabled + 1;
      findings := findings + [Disabled(p, version)];
    }
    m.SetFeatureDisabled(version, p.feature, Label(p), val);
  }

  /** One feature: the global flag, then the handlers in any order; done holds the probes of earlier features. */
  method ProbeFeature(m: Registry, read: Reader, vc: VersionConfig, name: string, ghost done: set<Probe>,
                      disabled0: nat, findings0: seq<Finding>, ghost before: Trace)
    returns (disabled: nat, findings: seq<Finding>)
    requires forall p :: p in done ==> p.feature != name
    requires Progress(read, vc.name, done, disabled0, findings0, before, TraceOf(m))
    modifies m`featureDisabled, m`featureSets
    ensures Progress(read, vc.name, Partly(done, name, vc.handlers.Keys), disabled, findings, before, TraceOf(m))
  {
    NoHandlersYet(done, name);
    disabled, findings := ProbeOne(m, read, vc.name, Probe(name, None), done, disabled0, findings0, before);
    var rest := vc.handlers.Keys;
    ghost var seen: set<string> := {};
    while rest != {}
      invariant rest <= vc.handlers.Keys && seen == vc.handlers.Keys - rest
      invariant Progress(read, vc.name, Partly(done, name, seen), disabled, findings, before, TraceOf(m))
      decreases |rest|
    {
      var h :| h in rest;
      rest := rest - {h};
      PartlyWith(done, name, seen, h);
      disabled, findings := ProbeOne(m, read, vc.name, Probe(name, Some(h)), Partly(done, name, seen), disabled,
                                     findings, before);
      seen := seen + {h};
    }
    assert seen == vc.handlers.Keys;
  }

  /** The loop of Run over the feature names. */
  method ProbeAll(m: Registry, read: Reader, vc: VersionConfig, names: seq<string>)
    returns (disabled: nat, findings: seq<Finding>)
    requires Distinct(names)
    modifies m`featureDisabled, m`featureSets
    ensures Progress(read, vc.name, Probes(names, vc.handlers.Keys), disabled, findings, old(TraceOf(m)), TraceOf(m))
  {
    findings, disabled := [], 0;
    ghost var before := TraceOf(m);
    for i := 0 to |names|
      invariant Progress(read, vc.name, Probes(names[..i], vc.handlers.Keys), disabled, findings, before, TraceOf(m))
    {
      NextName(names, vc.handlers.Keys, i);
      disabled, findings := ProbeFeature(m, read, vc, names[i], Probes(names[..i], vc.handlers.Keys), disabled,
                                         findings, before);
    }
    assert names[..|names|] == names;
  }

  /** names is the list of well-known features; the handlers of each are visited in any order. */
  method Run(m: Registry, read: Reader, vc: VersionConfig, names: seq<string>, now: int)
    returns (lines: seq<Line>, findings: seq<Finding>, disabled: nat)
    requires Distinct(names)
    modifies m`featureDisabled, m`featureSets, m`lastRun
    ensures Progress(read, vc.name, Probes(names, vc.handlers.Keys), disabled, findings, old(TraceOf(m)), TraceOf(m))
    ensures lines == [Probed(|names|, |vc.handlers|, disabled)]
    ensures m.lastRun == old(m.lastRun)["features_" + vc.name := now]
    ensures AddsUp(|Probes(names, vc.handlers.Keys)|, disabled, findings, old(TraceOf(m)), TraceOf(m))
  {
    disabled, findings := ProbeAll(m, read, vc, names);
    ProbesAddUp(read, vc.name, Probes(names, vc.handlers.Keys), disabled, findings, old(TraceOf(m)), TraceOf(m));
    lines := [Probed(|names|, |vc.handlers|, disabled)];
    m.lastRun := m.lastRun["features_" + vc.name := now];
  }

  /** The features the service probes are all different. */
  lemma FeatureNamesDistinct()
    ensures Distinct(FEATURE_NAMES)
  {
    forall i, j | 0 <= i < j < |FEATURE_NAMES|
      ensures FEATURE_NAMES[i] != FEATURE_NAMES[j]
    {
      var a, b := FEATURE_NAMES[i], FEATURE_NAMES[j];
      assert |a| == |b| ==> a[0] != b[0] || a[1] != b[1];
    }
  }

  // ---------- over the wire ----------

  function ProbeKey(H: HashFn, vc: VersionConfig, p: Probe): Word
    requires p.handler.Some? ==> p.handler.value in vc.handlers
  {
    if p.handler.None? then RootHash(H, Ascii(p.feature))
    else FeatureKeyForHandler(H, Ascii(p.feature), vc.handlers[p.handler.value])
  }

  /** The flag reader of a client: one getBool per probe. */
  function FlagReader(H: HashFn, c: Chain, vc: VersionConfig): Reader {
    (p: Probe) => if p.handler.Some? && p.handler.value !in vc.handlers then Ok(false)
         else BoolAt(c, vc.dataStore, ProbeKey(H, vc, p))
  }

  /** What the DataStore holds for a probe. */
  function StoredFlag(H: HashFn, d: Contract, vc: VersionConfig, p: Probe): bool
    requires d.DataStore? && (p.handler.Some? ==> p.handler.value in vc.handlers)
  {
    Stored(d.bools, ProbeKey(H, vc, p), false)
  }

  /** Against a node that serves the contracts, no probe fails and each returns the stored flag. */
  lemma FeaturesOverTheWire(H: HashFn, c: Chain, world: World, vc: VersionConfig, names: seq<string>, p: Probe)
    requires Serves(c, world) && SelectorsDiffer(c.sel) && vc.dataStore in world && world[vc.dataStore].DataStore?
    requires p in Probes(names, vc.handlers.Keys)
    ensures p.handler.Some? ==> p.handler.value in vc.handlers
    ensures FlagReader(H, c, vc)(p) == Ok(StoredFlag(H, world[vc.dataStore], vc, p))
  {
    ProbesAreOfNames(names, vc.handlers.Keys);
    BoolReadAgrees(c, world, vc.dataStore, ProbeKey(H, vc, p));
  }

  /** The probes whose flag is stored as true. */
  ghost function StoredOns(H: HashFn, d: Contract, vc: VersionConfig, names: seq<string>): set<Probe>
    requires d.DataStore?
  {
    set p | p in Probes(names, vc.handlers.Keys) && (p.handler.Some? ==> p.handler.value in vc.handlers)
            && StoredFlag(H, d, vc, p)
  }

  /** So a run there reports no read error, counts the flags stored as true, and sets a gauge for every probe. */
  lemma RunOverTheWire(H: HashFn, c: Chain, world: World, vc: VersionConfig, names: seq<string>, disabled: nat,
                       findings: seq<Finding>, before: Trace, after: Trace)
    requires Serves(c, world) && SelectorsDiffer(c.sel) && vc.dataStore in world && world[vc.dataStore].DataStore?
    requires Progress(FlagReader(H, c, vc), vc.name, Probes(names, vc.handlers.Keys), disabled, findings, before, after)
    ensures CountIf(findings, IsUnread) == 0
    ensures CountIf(findings, IsDisabled) == disabled == |StoredOns(H, world[vc.dataStore], vc, names)|
    ensures |after.sets| == |before.sets| + |Probes(names, vc.handlers.Keys)|
  {
    FlagsAreRead(H, c, world, vc, names);
    NoneUnread(FlagReader(H, c, vc), vc.name, Probes(names, vc.handlers.Keys), disabled, findings, before, after);
  }

  lemma NoneUnread(read: Reader, version: string, ps: set<Probe>, disabled: nat, findings: seq<Finding>,
                   before: Trace, after: Trace)
    requires Progress(read, version, ps, disabled, findings, before, after) && Failed(read, ps) == {}
    ensures CountIf(findings, IsUnread) == 0
    ensures CountIf(findings, IsDisabled) == disabled == |Ons(read, ps)|
    ensures |after.sets| == |before.sets| + |ps|
  {
    UnreadFindings(read, version, ps, findings);
    ProbesAddUp(read, version, ps, disabled, findings, before, after);
  }

  lemma FlagsAreRead(H: HashFn, c: Chain, world: World, vc: VersionConfig, names: seq<string>)
    requires Serves(c, world) && SelectorsDiffer(c.sel) && vc.dataStore in world && world[vc.dataStore].DataStore?
    ensures Failed(FlagReader(H, c, vc), Probes(names, vc.handlers.Keys)) == {}
    ensures Ons(FlagReader(H, c, vc), Probes(names, vc.handlers.Keys)) == StoredOns(H, world[vc.dataStore], vc, names)
  {
    var read, ps := FlagReader(H, c, vc), Probes(names, vc.handlers.Keys);
    var d := world[vc.dataStore];
    forall p | p in ps
      ensures p.handler.Some? ==> p.handler.value in vc.handlers
      ensures read(p).Ok? && (p in Ons(read, ps) <==> p in StoredOns(H, d, vc, names))
    {
      FeaturesOverTheWire(H, c, world, vc, names, p);
    }
  }
}
