/** Render's grouping is a stable partition of the reports by version. */
module Grouping {
  import opened Digest
  import opened Tallies

  /** Some report of u precedes every report of v. */
  ghost predicate AppearsBefore(rs: seq<Report>, u: string, v: string) {
    exists p :: 0 <= p < |rs| && rs[p].version == u && forall q :: 0 <= q <= p ==> rs[q].version != v
  }

  /** The order list: every version once, by first appearance. */
  lemma {:induction false} VersionsByFirstAppearance(rs: seq<Report>)
    ensures Distinct(Versions(rs))
    ensures forall v :: v in Versions(rs) <==> exists p :: 0 <= p < |rs| && rs[p].version == v
    ensures forall i, j :: 0 <= i < j < |Versions(rs)| ==> AppearsBefore(rs, Versions(rs)[i], Versions(rs)[j])
  {
    if rs != [] {
      var init, v, seen, order := rs[..|rs| - 1], rs[|rs| - 1].version, Versions(rs[..|rs| - 1]), Versions(rs);
      VersionsByFirstAppearance(init);
      forall u
        ensures u in order <==> exists p :: 0 <= p < |rs| && rs[p].version == u
      {
        if u in seen {
          var p :| 0 <= p < |init| && init[p].version == u;
          assert rs[p].version == u;
        }
        assert rs[|rs| - 1].version == v;
        if p :| 0 <= p < |rs| && rs[p].version == u && p != |rs| - 1 {
          assert init[p].version == u;
        }
      }
      forall i, j | 0 <= i < j < |order|
        ensures AppearsBefore(rs, order[i], order[j])
      {
        assert rs == init + [rs[|rs| - 1]];
        EarlierStays(init, rs[|rs| - 1], order[i], order[j]);
      }
    }
  }

  lemma EarlierStays(init: seq<Report>, r: Report, u: string, v: string)
    requires AppearsBefore(init, u, v) || (u in Versions(init) && v !in Versions(init))
    requires forall w :: w in Versions(init) <==> exists p :: 0 <= p < |init| && init[p].version == w
    ensures AppearsBefore(init + [r], u, v)
  {
    var p :| 0 <= p < |init| && init[p].version == u
          && (AppearsBefore(init, u, v) ==> forall q :: 0 <= q <= p ==> init[q].version != v);
    var rs := init + [r];
    assert rs[p].version == u;
    forall q | 0 <= q <= p
      ensures rs[q].version != v
    {
      assert rs[q] == init[q];
    }
  }

  lemma {:induction false} SectionConcat(a: seq<Report>, b: seq<Report>, v: string)
    ensures Section(a + b, v) == Section(a, v) + Section(b, v)
  {
    if b == [] {
      assert a + b == a;
    } else {
      SectionConcat(a, b[..|b| - 1], v);
      SplitTail(a, b);
    }
  }

  lemma {:induction false} SectionOfUniform(rs: seq<Report>, u: string, v: string)
    requires forall r :: r in rs ==> r.version == u
    ensures Section(rs, v) == if u == v then rs else []
  {
    if rs != [] {
      SectionOfUniform(rs[..|rs| - 1], u, v);
      assert rs[|rs| - 1] in rs;
      assert rs == rs[..|rs| - 1] + [rs[|rs| - 1]];
    }
  }

  lemma {:induction false} SectionOfAbsent(rs: seq<Report>, v: string)
    requires forall r :: r in rs ==> r.version != v
    ensures Section(rs, v) == []
  {
    if rs != [] {
      SectionOfAbsent(rs[..|rs| - 1], v);
      assert rs[|rs| - 1] in rs;
    }
  }

  /** Regrouping never reorders the reports of one version. */
  lemma {:induction false} SectionsAreStable(rs: seq<Report>, order: seq<string>, v: string)
    requires Distinct(order)
    ensures Section(Sections(rs, order), v) == if v in order then Section(rs, v) else []
  {
    if order != [] {
      var init, u := order[..|order| - 1], order[|order| - 1];
      SectionsAreStable(rs, init, v);
      SectionConcat(Sections(rs, init), Section(rs, u), v);
      SectionHasVersion(rs, u);
      SectionOfUniform(Section(rs, u), u, v);
      LastOnce(order, v);
      assert [] + Section(rs, v) == Section(rs, v) == Section(rs, v) + [];
    }
  }

  lemma LastOnce(order: seq<string>, v: string)
    requires Distinct(order) && order != []
    ensures var init, u := order[..|order| - 1], order[|order| - 1];
      (v in order <==> v in init || v == u) && (v == u ==> v !in init)
  {
    assert order == order[..|order| - 1] + [order[|order| - 1]];
  }

  lemma {:induction false} SectionsGain(rs: seq<Report>, r: Report, order: seq<string>)
    requires Distinct(order)
    ensures multiset(Sections(rs + [r], order))
         == multiset(Sections(rs, order)) + (if r.version in order then multiset{r} else multiset{})
  {
    if order != [] {
      var init, u := order[..|order| - 1], order[|order| - 1];
      SectionsGain(rs, r, init);
      LastOnce(order, r.version);
      SectionGains(rs, r, u);
    }
  }

  lemma SectionGains(rs: seq<Report>, r: Report, u: string)
    ensures Section(rs + [r], u) == if r.version == u then Section(rs, u) + [r] else Section(rs, u)
    ensures multiset(Section(rs + [r], u))
         == multiset(Section(rs, u)) + (if r.version == u then multiset{r} else multiset{})
  {
    assert (rs + [r])[..|rs|] == rs;
  }

  /** No report is lost or repeated. */
  lemma {:induction false} GroupedConserves(rs: seq<Report>)
    ensures multiset(Grouped(rs)) == multiset(rs)
  {
    if rs != [] {
      var init, r := rs[..|rs| - 1], rs[|rs| - 1];
      GroupedConserves(init);
      assert rs == init + [r];
      GroupedGains(init, r);
    }
  }

  lemma GroupedGains(rs: seq<Report>, r: Report)
    ensures multiset(Grouped(rs + [r])) == multiset(Grouped(rs)) + multiset{r}
  {
    var seen, v := Versions(rs), r.version;
    assert (rs + [r])[..|rs|] == rs;
    VersionsByFirstAppearance(rs);
    SectionsGain(rs, r, seen);
    if v !in seen {
      AbsentSection(rs, v);
      SectionGains(rs, r, v);
      assert (seen + [v])[..|seen|] == seen;
      assert Grouped(rs + [r]) == Sections(rs + [r], seen) + [r];
    }
  }

  lemma AbsentSection(rs: seq<Report>, v: string)
    requires v !in Versions(rs)
    ensures Section(rs, v) == []
  {
    VersionsByFirstAppearance(rs);
    SectionOfAbsent(rs, v);
  }

  /** The place of a version in the order list. */
  ghost function Rank(order: seq<string>, v: string): nat
    requires v in order
  {
    if order[|order| - 1] == v then |order| - 1 else Rank(order[..|order| - 1], v)
  }

  ghost predicate Ranked(g: seq<Report>, order: seq<string>) {
    && (forall r :: r in g ==> r.version in order)
    && forall p, q :: 0 <= p < q < |g| ==> Rank(order, g[p].version) <= Rank(order, g[q].version)
  }

  /** g lists whole versions in the order of first appearance, and keeps the order within each version. */
  ghost predicate IsStablePartition(g: seq<Report>, rs: seq<Report>) {
    && Ranked(g, Versions(rs))
    && forall v :: Section(g, v) == Section(rs, v)
  }

  lemma RankInPrefix(order: seq<string>, v: string)
    requires order != [] && v in order[..|order| - 1] && Distinct(order)
    ensures v in order && Rank(order, v) == Rank(order[..|order| - 1], v) < |order| - 1
  {
    RankBound(order[..|order| - 1], v);
  }

  lemma {:induction false} RankBound(order: seq<string>, v: string)
    requires v in order
    ensures Rank(order, v) < |order| && order[Rank(order, v)] == v
  {
    if order[|order| - 1] != v {
      RankBound(order[..|order| - 1], v);
    }
  }

  lemma {:induction false} SectionsAreRanked(rs: seq<Report>, order: seq<string>)
    requires Distinct(order)
    ensures Ranked(Sections(rs, order), order)
  {
    if order != [] {
      var init, u := order[..|order| - 1], order[|order| - 1];
      var a, b := Sections(rs, init), Section(rs, u);
      SectionsAreRanked(rs, init);
      SectionHasVersion(rs, u);
      forall r: Report | r in a + b
        ensures r.version in order && (r in a ==> Rank(order, r.version) == Rank(init, r.version) < |init|)
      {
        if r in a {
          RankInPrefix(order, r.version);
        }
      }
      forall p, q | 0 <= p < q < |a + b|
        ensures Rank(order, (a + b)[p].version) <= Rank(order, (a + b)[q].version)
      {
        assert (a + b)[p] in a + b && (a + b)[q] in a + b;
        if q < |a| {
          assert (a + b)[p] == a[p] && (a + b)[q] == a[q];
          assert a[p] in a && a[q] in a;
        } else {
          assert (a + b)[q] == b[q - |a|];
          RankBound(order, (a + b)[p].version);
        }
      }
    }
  }

  /** Where the last version begins. */
  lemma {:induction false} LastBlock(g: seq<Report>, order: seq<string>) returns (k: nat)
    requires order != [] && Distinct(order) && Ranked(g, order)
    ensures k <= |g|
    ensures forall p :: 0 <= p < |g| ==> (g[p].version == order[|order| - 1] <==> k <= p)
  {
    if g == [] {
      k := 0;
    } else {
      var init, v := g[..|g| - 1], order[|order| - 1];
      assert forall r :: r in init ==> r in g;
      var k0 := LastBlock(init, order);
      if g[|g| - 1].version == v {
        k := k0;
      } else {
        k := |g|;
        assert g[|g| - 1] in g;
        RankBound(order, g[|g| - 1].version);
        forall p | 0 <= p < |g|
          ensures g[p].version != v
        {
          assert g[p] in g;
          assert Rank(order, g[p].version) <= Rank(order, g[|g| - 1].version) < |order| - 1;
        }
      }
    }
  }

  lemma RankedPrefix(g: seq<Report>, order: seq<string>, k: nat)
    requires order != [] && Distinct(order) && Ranked(g, order) && k <= |g|
    requires forall p :: 0 <= p < k ==> g[p].version != order[|order| - 1]
    ensures Ranked(g[..k], order[..|order| - 1])
  {
    var a, init := g[..k], order[..|order| - 1];
    assert order == init + [order[|order| - 1]];
    forall r: Report | r in a
      ensures r.version in init
    {
      var p :| 0 <= p < k && g[p] == r;
      assert g[p] in g;
    }
    forall p, q | 0 <= p < q < |a|
      ensures Rank(init, a[p].version) <= Rank(init, a[q].version)
    {
      assert a[p] in a && a[q] in a && g[p] == a[p] && g[q] == a[q];
      RankInPrefix(order, a[p].version);
      RankInPrefix(order, a[q].version);
    }
  }

  lemma SectionOfBlock(a: seq<Report>, b: seq<Report>, u: string)
    requires forall r :: r in a ==> r.version != u
    requires forall r :: r in b ==> r.version == u
    ensures Section(a + b, u) == b
  {
    SectionConcat(a, b, u);
    SectionOfUniform(b, u, u);
    SectionOfAbsent(a, u);
    assert [] + b == b;
  }

  lemma SectionBeforeBlock(a: seq<Report>, b: seq<Report>, u: string, v: string)
    requires v != u && forall r :: r in b ==> r.version == u
    ensures Section(a + b, v) == Section(a, v)
  {
    SectionConcat(a, b, v);
    SectionOfUniform(b, u, v);
    assert Section(a, v) + [] == Section(a, v);
  }

  /** A ranked list is the concatenation of its own sections. */
  lemma {:induction false} RankedIsSections(g: seq<Report>, rs: seq<Report>, order: seq<string>)
    requires Distinct(order) && Ranked(g, order)
    requires forall v :: v in order ==> Section(g, v) == Section(rs, v)
    ensures g == Sections(rs, order)
    decreases |order|
  {
    if order == [] {
      assert forall r :: r !in g;
    } else {
      var init, u := order[..|order| - 1], order[|order| - 1];
      var k := LastBlock(g, order);
      var a, b := g[..k], g[k..];
      assert g == a + b;
      RankedPrefix(g, order, k);
      assert order == init + [u];
      SectionOfBlock(a, b, u);
      forall v | v in init
        ensures Section(a, v) == Section(rs, v)
      {
        assert v in order && v != u;
        SectionBeforeBlock(a, b, u, v);
      }
      RankedIsSections(a, rs, init);
    }
  }

  /** The grouping is the stable partition by first appearance, and the only one. */
  lemma GroupedIsTheStablePartition(rs: seq<Report>, g: seq<Report>)
    ensures IsStablePartition(g, rs) <==> g == Grouped(rs)
  {
    var order := Versions(rs);
    VersionsByFirstAppearance(rs);
    if IsStablePartition(g, rs) {
      RankedIsSections(g, rs, order);
    }
    SectionsAreRanked(rs, order);
    forall v
      ensures Section(Grouped(rs), v) == Section(rs, v)
    {
      SectionsAreStable(rs, order, v);
      if v !in order {
        AbsentSection(rs, v);
      }
    }
  }

  // ---------- conservation of what the reports say ----------

  lemma Extract(s: seq<Report>, r: Report) returns (a: seq<Report>, b: seq<Report>)
    requires r in multiset(s)
    ensures s == a + ([r] + b)
    ensures multiset(a + b) == multiset(s) - multiset{r}
  {
    var i :| 0 <= i < |s| && s[i] == r;
    a, b := s[..i], s[i + 1..];
    assert s == a + ([r] + b);
    assert multiset(a + ([r] + b)) == multiset(a + b) + multiset{r};
  }

  lemma FlatMapMiddle<T>(f: Report -> seq<T>, a: seq<Report>, r: Report, b: seq<Report>)
    ensures multiset(FlatMap(f, a + ([r] + b))) == multiset(FlatMap(f, a + b)) + multiset(f(r))
  {
    FlatMapConcat(f, a, b);
    FlatMapConcat(f, a, [r] + b);
    FlatMapConcat(f, [r], b);
    assert [r][..0] == [];
    assert [] + f(r) == f(r);
    assert FlatMap(f, [r]) == f(r);
  }

  /** Flattening is insensitive to the order of the reports. */
  lemma {:induction false} FlatMapPermutes<T>(f: Report -> seq<T>, a: seq<Report>, b: seq<Report>)
    requires multiset(a) == multiset(b)
    ensures multiset(FlatMap(f, a)) == multiset(FlatMap(f, b))
    decreases |a|
  {
    if |a| == 0 {
      assert |multiset(b)| == |multiset(a)| == 0;
    } else {
      var init, r := a[..|a| - 1], a[|a| - 1];
      SplitLast(a);
      assert r in multiset(b);
      var x, y := Extract(b, r);
      FlatMapPermutes(f, init, x + y);
      FlatMapMiddle(f, x, r, y);
    }
  }

  lemma SplitLast(a: seq<Report>)
    requires |a| > 0
    ensures multiset(a) == multiset(a[..|a| - 1]) + multiset{a[|a| - 1]}
  {
    assert a == a[..|a| - 1] + [a[|a| - 1]];
  }

  function LinesOf(r: Report): seq<string> {
    r.lines
  }

  function EntryLines(es: seq<Entry>): seq<string> {
    if es == [] then [] else EntryLines(es[..|es| - 1]) + es[|es| - 1].lines
  }

  /** All lines under all headings of a sheet, top to bottom. */
  function SheetLines(ps: seq<Part>): seq<string> {
    if ps == [] then [] else SheetLines(ps[..|ps| - 1]) + EntryLines(ps[|ps| - 1].entries)
  }

  lemma {:induction false} EntryLinesOf(rs: seq<Report>)
    ensures EntryLines(EntriesOf(rs)) == FlatMap(LinesOf, rs)
  {
    if rs != [] {
      EntryLinesOf(rs[..|rs| - 1]);
      assert EntriesOf(rs)[..|rs| - 1] == EntriesOf(rs[..|rs| - 1]);
    }
  }

  lemma {:induction false} SheetLinesOf(rs: seq<Report>, order: seq<string>)
    ensures SheetLines(PartsOf(rs, order)) == FlatMap(LinesOf, Sections(rs, order))
  {
    if order != [] {
      var init, u := order[..|order| - 1], order[|order| - 1];
      SheetLinesOf(rs, init);
      assert PartsOf(rs, order)[..|init|] == PartsOf(rs, init);
      EntryLinesOf(Section(rs, u));
      FlatMapConcat(LinesOf, Sections(rs, init), Section(rs, u));
    }
  }

  /** The digest carries every line and every finding of every report, each exactly as often as it was reported. */
  lemma DigestConserves(rs: seq<Report>)
    ensures multiset(SheetLines(SheetOf(rs).parts)) == multiset(FlatMap(LinesOf, rs))
    ensures multiset(SheetOf(rs).findings) == multiset(FlatMap(Flagged, rs))
  {
    GroupedConserves(rs);
    FlatMapPermutes(LinesOf, Grouped(rs), rs);
    FlatMapPermutes(Flagged, Grouped(rs), rs);
    SheetLinesOf(rs, Versions(rs));
  }

  // ---------- rendering what is already grouped ----------

  lemma {:induction false} VersionsOfBlock(a: seq<Report>, b: seq<Report>, v: string)
    requires v !in Versions(a) && b != [] && forall r :: r in b ==> r.version == v
    ensures Versions(a + b) == Versions(a) + [v]
  {
    var init := b[..|b| - 1];
    assert (a + b)[..|a + b| - 1] == a + init;
    assert (a + b)[|a + b| - 1].version == v by {
      assert b[|b| - 1] in b;
    }
    if init == [] {
      assert a + init == a;
    } else {
      VersionsOfBlock(a, init, v);
    }
  }

  lemma {:induction false} VersionsOfSections(rs: seq<Report>, order: seq<string>)
    requires Distinct(order) && forall v :: v in order ==> Section(rs, v) != []
    ensures Versions(Sections(rs, order)) == order
  {
    if order != [] {
      var init, u := order[..|order| - 1], order[|order| - 1];
      assert order == init + [u] && u in order;
      VersionsOfSections(rs, init);
      SectionHasVersion(rs, u);
      VersionsOfBlock(Sections(rs, init), Section(rs, u), u);
    }
  }

  lemma {:induction false} PresentSection(rs: seq<Report>, p: nat)
    requires p < |rs|
    ensures Section(rs, rs[p].version) != []
  {
    if p < |rs| - 1 {
      PresentSection(rs[..|rs| - 1], p);
    }
  }

  /** Grouping first changes nothing: the versions, the grouping and the text stay the same. */
  lemma RenderIgnoresInterleaving(rs: seq<Report>)
    ensures Versions(Grouped(rs)) == Versions(rs)
    ensures Grouped(Grouped(rs)) == Grouped(rs)
    ensures RenderText(Grouped(rs)) == RenderText(rs)
  {
    var order, g := Versions(rs), Grouped(rs);
    VersionsByFirstAppearance(rs);
    forall v | v in order
      ensures Section(rs, v) != []
    {
      var p :| 0 <= p < |rs| && rs[p].version == v;
      PresentSection(rs, p);
    }
    VersionsOfSections(rs, order);
    GroupedIsTheStablePartition(rs, g);
    GroupedIsTheStablePartition(g, g);
    assert forall v :: Section(g, v) == Section(rs, v);
    assert PartsOf(g, order) == PartsOf(rs, order);
  }
}
