/** A listed finding says which version and which task it comes from, and a reader can tell. */
module Attribution {
  import opened Wrappers
  import opened Digest
  import opened Grouping

  datatype Origin = Origin(version: string, task: string, finding: string)

  // ---------- a reader ----------

  predicate SepAt(s: string, sep: string, i: nat) {
    i + |sep| <= |s| && s[i..i + |sep|] == sep
  }

  /** The first place at or after i where s has sep, or the end of s. */
  function Find(s: string, sep: string, i: nat): (k: nat)
    requires i <= |s|
    ensures i <= k <= |s|
    ensures k < |s| ==> SepAt(s, sep, k)
    ensures forall j :: i <= j < k ==> !SepAt(s, sep, j)
    decreases |s| - i
  {
    if i == |s| || SepAt(s, sep, i) then i else Find(s, sep, i + 1)
  }

  /** Splits at the opening bracket, the first slash, and the first bracket that closes before a space. */
  function ReadFinding(s: string): Option<Origin> {
    if s == "" || s[0] != '[' then None else
      var slash := Find(s, "/", 1);
      if slash == |s| then None else
        var close := Find(s, "] ", slash + 1);
        if close == |s| then None else Some(Origin(s[1..slash], s[slash + 1..close], s[close + 2..]))
  }

  // ---------- the reader inverts what is listed ----------

  /** Names that the reader can tell from what separates them. */
  ghost predicate Separable(version: string, task: string) {
    && '/' !in version
    && forall i :: 0 <= i < |task| - 1 ==> !(task[i] == ']' && task[i + 1] == ' ')
  }

  lemma FindIs(s: string, sep: string, i: nat, k: nat)
    requires i <= k < |s| && SepAt(s, sep, k) && forall j :: i <= j < k ==> !SepAt(s, sep, j)
    ensures Find(s, sep, i) == k
  {
  }

  lemma SlashAt(s: string, i: nat)
    ensures SepAt(s, "/", i) <==> i < |s| && s[i] == '/'
  {
    if i < |s| {
      assert s[i..i + 1] == [s[i]];
    }
  }

  lemma CloserAt(s: string, i: nat)
    ensures SepAt(s, "] ", i) <==> i + 1 < |s| && s[i] == ']' && s[i + 1] == ' '
  {
    if i + 1 < |s| {
      assert s[i..i + 2] == [s[i], s[i + 1]];
    }
  }

  lemma Pieces(v: string, t: string, f: string)
    ensures var s := "[" + v + "/" + t + "] " + f;
      var slash, close := 1 + |v|, 2 + |v| + |t|;
      && |s| == close + 2 + |f|
      && s[0] == '[' && s[slash] == '/' && s[close] == ']' && s[close + 1] == ' '
      && s[1..slash] == v && s[slash + 1..close] == t && s[close + 2..] == f
  {
  }

  lemma SlashFound(s: string, v: string)
    requires 1 + |v| < |s| && s[1..1 + |v|] == v && s[1 + |v|] == '/' && '/' !in v
    ensures Find(s, "/", 1) == 1 + |v|
  {
    forall j | 1 <= j < 1 + |v|
      ensures !SepAt(s, "/", j)
    {
      SlashAt(s, j);
      assert s[j] == s[1..1 + |v|][j - 1] == v[j - 1];
    }
    SlashAt(s, 1 + |v|);
    FindIs(s, "/", 1, 1 + |v|);
  }

  lemma CloserFound(s: string, from: nat, t: string)
    requires from + |t| + 1 < |s| && s[from..from + |t|] == t && s[from + |t|] == ']' && s[from + |t| + 1] == ' '
    requires forall i :: 0 <= i < |t| - 1 ==> !(t[i] == ']' && t[i + 1] == ' ')
    ensures Find(s, "] ", from) == from + |t|
  {
    var close := from + |t|;
    forall j | from <= j < close
      ensures !SepAt(s, "] ", j)
    {
      CloserAt(s, j);
      var i := j - from;
      assert s[j] == s[from..close][i] == t[i];
      if j + 1 < close {
        assert s[j + 1] == s[from..close][i + 1] == t[i + 1];
      }
    }
    CloserAt(s, close);
    FindIs(s, "] ", from, close);
  }

  lemma SeparableReads(s: string, v: string, t: string, f: string)
    requires s == "[" + v + "/" + t + "] " + f && Separable(v, t)
    ensures ReadFinding(s) == Some(Origin(v, t, f))
  {
    Pieces(v, t, f);
    SlashFound(s, v);
    CloserFound(s, 2 + |v|, t);
  }

  lemma ReadIsSeparable(s: string)
    requires ReadFinding(s).Some?
    ensures Separable(ReadFinding(s).value.version, ReadFinding(s).value.task)
  {
    var slash := Find(s, "/", 1);
    var close := Find(s, "] ", slash + 1);
    var v, t := s[1..slash], s[slash + 1..close];
    forall i | 0 <= i < |v|
      ensures v[i] != '/'
    {
      SlashAt(s, i + 1);
      assert v[i] == s[i + 1] && !SepAt(s, "/", i + 1);
    }
    forall i | 0 <= i < |t| - 1
      ensures !(t[i] == ']' && t[i + 1] == ' ')
    {
      CloserAt(s, slash + 1 + i);
      assert t[i] == s[slash + 1 + i] && t[i + 1] == s[slash + 2 + i] && !SepAt(s, "] ", slash + 1 + i);
    }
  }

  /** A listed finding gives back version, task and finding exactly if neither name holds a separator too early. */
  lemma FindingReadsBack(r: Report, f: string)
    ensures ReadFinding(Flag(r, f)) == Some(Origin(r.version, r.task, f)) <==> Separable(r.version, r.task)
  {
    if Separable(r.version, r.task) {
      SeparableReads(Flag(r, f), r.version, r.task, f);
    }
    if ReadFinding(Flag(r, f)) == Some(Origin(r.version, r.task, f)) {
      ReadIsSeparable(Flag(r, f));
    }
  }

  // ---------- the whole list ----------

  function OriginsOf(r: Report): (os: seq<Origin>)
    ensures |os| == |r.findings|
  {
    seq(|r.findings|, i requires 0 <= i < |r.findings| => Origin(r.version, r.task, r.findings[i]))
  }

  /** Each of these lines is read as the origin at the same place. */
  ghost predicate ReadAs(ls: seq<string>, os: seq<Origin>) {
    |ls| == |os| && forall i :: 0 <= i < |ls| ==> ReadFinding(ls[i]) == Some(os[i])
  }

  lemma ReportReadAs(r: Report)
    requires Separable(r.version, r.task)
    ensures ReadAs(Flagged(r), OriginsOf(r))
  {
    forall i | 0 <= i < |r.findings|
      ensures ReadFinding(Flagged(r)[i]) == Some(OriginsOf(r)[i])
    {
      FindingReadsBack(r, r.findings[i]);
    }
  }

  lemma ReadAsConcat(a: seq<string>, x: seq<Origin>, b: seq<string>, y: seq<Origin>)
    requires ReadAs(a, x) && ReadAs(b, y)
    ensures ReadAs(a + b, x + y)
  {
  }

  lemma {:induction false} ReportsReadAs(rs: seq<Report>)
    requires forall r :: r in rs ==> Separable(r.version, r.task)
    ensures ReadAs(FlatMap(Flagged, rs), FlatMap(OriginsOf, rs))
  {
    if rs != [] {
      var init, r := rs[..|rs| - 1], rs[|rs| - 1];
      assert r in rs;
      ReportsReadAs(init);
      ReportReadAs(r);
      ReadAsConcat(FlatMap(Flagged, init), FlatMap(OriginsOf, init), Flagged(r), OriginsOf(r));
    }
  }

  /**
    The findings of a digest, read one by one, are the findings of the reports, each with the version and the task that
    reported it and exactly as often as it was reported.
   */
  lemma FindingsAreAttributed(rs: seq<Report>)
    requires forall r :: r in rs ==> Separable(r.version, r.task)
    ensures ReadAs(SheetOf(rs).findings, FlatMap(OriginsOf, Grouped(rs)))
    ensures multiset(FlatMap(OriginsOf, Grouped(rs))) == multiset(FlatMap(OriginsOf, rs))
  {
    var g := Grouped(rs);
    GroupedConserves(rs);
    forall r | r in g
      ensures r in rs
    {
      assert r in multiset(g) && r in multiset(rs);
    }
    ReportsReadAs(g);
    FlatMapPermutes(OriginsOf, g, rs);
  }

  /** And the origins of the reports are all their findings, report by report. */
  lemma {:induction false} OriginsListFindings(rs: seq<Report>, o: Origin)
    ensures multiset(FlatMap(OriginsOf, rs))[o] == Occurrences(rs, o)
  {
    if rs != [] {
      OriginsListFindings(rs[..|rs| - 1], o);
      OwnOccurrences(rs[|rs| - 1], o, |rs[|rs| - 1].findings|);
    }
  }

  /** How often a version's task reported a finding. */
  function Occurrences(rs: seq<Report>, o: Origin): nat {
    if rs == [] then 0 else
      var r := rs[|rs| - 1];
      Occurrences(rs[..|rs| - 1], o)
      + if r.version == o.version && r.task == o.task then multiset(r.findings)[o.finding] else 0
  }

  lemma {:induction false} OwnOccurrences(r: Report, o: Origin, k: nat)
    requires k <= |r.findings|
    ensures multiset(OriginsOf(r)[..k])[o]
         == if r.version == o.version && r.task == o.task then multiset(r.findings[..k])[o.finding] else 0
    ensures OriginsOf(r)[..|r.findings|] == OriginsOf(r) && r.findings[..|r.findings|] == r.findings
  {
    if k > 0 {
      OwnOccurrences(r, o, k - 1);
      assert OriginsOf(r)[..k] == OriginsOf(r)[..k - 1] + [Origin(r.version, r.task, r.findings[k - 1])];
      assert r.findings[..k] == r.findings[..k - 1] + [r.findings[k - 1]];
    }
  }
}
