/** The daily digest: Render and the structure it prints. */
module Digest {

  /** What a task hands back for one version. */
  datatype Report = Report(version: string, task: string, lines: seq<string>, findings: seq<string>)

  // ---------- grouping ----------

  /** The distinct versions, in order of first appearance. */
  function Versions(rs: seq<Report>): (order: seq<string>) {
    if rs == [] then [] else
      var seen, v := Versions(rs[..|rs| - 1]), rs[|rs| - 1].version;
      if v in seen then seen else seen + [v]
  }

  /** The reports of one version, in their original order. */
  function Section(rs: seq<Report>, v: string): seq<Report> {
    if rs == [] then [] else
      var init, r := Section(rs[..|rs| - 1], v), rs[|rs| - 1];
      if r.version == v then init + [r] else init
  }

  /** The sections of the given versions, one after the other. */
  function Sections(rs: seq<Report>, order: seq<string>): seq<Report> {
    if order == [] then [] else
      Sections(rs, order[..|order| - 1]) + Section(rs, order[|order| - 1])
  }

  function Grouped(rs: seq<Report>): seq<Report> {
    Sections(rs, Versions(rs))
  }

  function FlatMap<T>(f: Report -> seq<T>, rs: seq<Report>): seq<T> {
    if rs == [] then [] else FlatMap(f, rs[..|rs| - 1]) + f(rs[|rs| - 1])
  }

  function Flag(r: Report, finding: string): string {
    "[" + r.version + "/" + r.task + "] " + finding
  }

  /** A report's findings as they are listed at the end of the digest. */
  function Flagged(r: Report): (fs: seq<string>)
    ensures |fs| == |r.findings|
  {
    seq(|r.findings|, i requires 0 <= i < |r.findings| => Flag(r, r.findings[i]))
  }

  // ---------- the printed structure ----------

  datatype Entry = Entry(task: string, lines: seq<string>)
  datatype Part = Part(version: string, entries: seq<Entry>)
  datatype Sheet = Sheet(parts: seq<Part>, findings: seq<string>)

  function EntriesOf(rs: seq<Report>): (es: seq<Entry>)
    ensures |es| == |rs|
  {
    seq(|rs|, i requires 0 <= i < |rs| => Entry(rs[i].task, rs[i].lines))
  }

  function PartsOf(rs: seq<Report>, order: seq<string>): (ps: seq<Part>)
    ensures |ps| == |order|
  {
    seq(|order|, i requires 0 <= i < |order| => PartOf(rs, order[i]))
  }

  function SheetOf(rs: seq<Report>): Sheet {
    Sheet(PartsOf(rs, Versions(rs)), FlatMap(Flagged, Grouped(rs)))
  }

  /** One line of the digest. */
  datatype Token =
    | Title
    | Blank
    | VersionLine(version: string)
    | TaskLine(task: string)
    | Item(line: string)
    | FindingsTitle
    | FindingLine(finding: string)

  const TITLE := "*Chain Reconciler — Daily Report*"
  const FINDINGS_TITLE := "*⚠️ Findings*"
  const VERSION_OPEN := "*=== "
  const VERSION_CLOSE := " ===*"
  const TASK_OPEN := "_"
  const TASK_CLOSE := "_:"
  const BULLET := "  • "
  const DASH := "  - "

  function Text(t: Token): string {
    match t
    case Title => TITLE
    case Blank => ""
    case VersionLine(v) => VERSION_OPEN + v + VERSION_CLOSE
    case TaskLine(t) => TASK_OPEN + t + TASK_CLOSE
    case Item(l) => BULLET + l
    case FindingsTitle => FINDINGS_TITLE
    case FindingLine(f) => DASH + f
  }

  function Texts(ts: seq<Token>): (ls: seq<string>)
    ensures |ls| == |ts|
  {
    seq(|ts|, i requires 0 <= i < |ts| => Text(ts[i]))
  }

  /** Lines with a newline after each. */
  function Unlines(ls: seq<string>): string {
    if ls == [] then "" else Unlines(ls[..|ls| - 1]) + (ls[|ls| - 1] + "\n")
  }

  function Print(ts: seq<Token>): string {
    Unlines(Texts(ts))
  }

  function Items(lines: seq<string>): (ts: seq<Token>)
    ensures |ts| == |lines|
  {
    seq(|lines|, i requires 0 <= i < |lines| => Item(lines[i]))
  }

  function FindingLines(fs: seq<string>): (ts: seq<Token>)
    ensures |ts| == |fs|
  {
    seq(|fs|, i requires 0 <= i < |fs| => FindingLine(fs[i]))
  }

  function EntryTokens(es: seq<Entry>): seq<Token> {
    if es == [] then [] else
      EntryTokens(es[..|es| - 1]) + ([TaskLine(es[|es| - 1].task)] + Items(es[|es| - 1].lines))
  }

  /** A version heading and its tasks. */
  function BlockTokens(p: Part): seq<Token> {
    [Blank, VersionLine(p.version)] + EntryTokens(p.entries)
  }

  function PartTokens(ps: seq<Part>): seq<Token> {
    if ps == [] then [] else PartTokens(ps[..|ps| - 1]) + BlockTokens(ps[|ps| - 1])
  }

  function FindingTokens(fs: seq<string>): seq<Token> {
    if fs == [] then [] else [Blank, FindingsTitle] + FindingLines(fs)
  }

  function Tokens(s: Sheet): seq<Token> {
    [Title] + PartTokens(s.parts) + FindingTokens(s.findings)
  }

  /** The text Render returns. */
  function RenderText(rs: seq<Report>): string {
    Print(Tokens(SheetOf(rs)))
  }

  // ---------- Render ----------

  lemma Associate<T>(a: seq<T>, b: seq<T>, c: seq<T>)
    ensures (a + b) + c == a + (b + c)
  {
  }

  lemma SplitTail<T>(a: seq<T>, b: seq<T>)
    requires b != []
    ensures (a + b)[..|a + b| - 1] == a + b[..|b| - 1] && (a + b)[|a + b| - 1] == b[|b| - 1]
  {
  }

  lemma {:induction false} UnlinesConcat(a: seq<string>, b: seq<string>)
    ensures Unlines(a + b) == Unlines(a) + Unlines(b)
  {
    if b == [] {
      assert a + b == a;
    } else {
      var init, last := b[..|b| - 1], b[|b| - 1] + "\n";
      UnlinesConcat(a, init);
      SplitTail(a, b);
      Associate(Unlines(a), Unlines(init), last);
    }
  }

  lemma PrintConcat(a: seq<Token>, b: seq<Token>)
    ensures Print(a + b) == Print(a) + Print(b)
  {
    assert Texts(a + b) == Texts(a) + Texts(b);
    UnlinesConcat(Texts(a), Texts(b));
  }

  lemma UnlinesSnoc(ls: seq<string>, l: string)
    ensures Unlines(ls + [l]) == Unlines(ls) + (l + "\n")
  {
    assert (ls + [l])[..|ls|] == ls;
  }

  lemma PrintSnoc(a: seq<Token>, t: Token)
    ensures Print(a + [t]) == Print(a) + (Text(t) + "\n")
  {
    assert Texts(a + [t]) == Texts(a) + [Text(t)];
    UnlinesSnoc(Texts(a), Text(t));
  }

  function PartOf(rs: seq<Report>, v: string): Part {
    Part(v, EntriesOf(Section(rs, v)))
  }

  lemma PartsSnoc(rs: seq<Report>, order: seq<string>, i: nat)
    requires i < |order|
    ensures PartTokens(PartsOf(rs, order[..i + 1]))
        == PartTokens(PartsOf(rs, order[..i])) + BlockTokens(PartOf(rs, order[i]))
  {
    var ps := PartsOf(rs, order[..i + 1]);
    assert ps[..i] == PartsOf(rs, order[..i]);
  }

  lemma EntriesSnoc(rs: seq<Report>, j: nat)
    requires j < |rs|
    ensures EntryTokens(EntriesOf(rs[..j + 1]))
         == EntryTokens(EntriesOf(rs[..j])) + ([TaskLine(rs[j].task)] + Items(rs[j].lines))
  {
    var es := EntriesOf(rs[..j + 1]);
    assert es[..j] == EntriesOf(rs[..j]);
  }

  lemma FlatMapSnoc<T>(f: Report -> seq<T>, rs: seq<Report>, j: nat)
    requires j < |rs|
    ensures FlatMap(f, rs[..j + 1]) == FlatMap(f, rs[..j]) + f(rs[j])
  {
    assert rs[..j + 1][..j] == rs[..j];
  }

  lemma {:induction false} FlatMapConcat<T>(f: Report -> seq<T>, a: seq<Report>, b: seq<Report>)
    ensures FlatMap(f, a + b) == FlatMap(f, a) + FlatMap(f, b)
  {
    if b == [] {
      assert a + b == a;
    } else {
      var init, r := b[..|b| - 1], b[|b| - 1];
      FlatMapConcat(f, a, init);
      SplitTail(a, b);
      Associate(FlatMap(f, a), FlatMap(f, init), f(r));
    }
  }

  lemma {:induction false} SectionHasVersion(rs: seq<Report>, v: string)
    ensures forall r :: r in Section(rs, v) ==> r.version == v && r in rs
  {
    if rs != [] {
      SectionHasVersion(rs[..|rs| - 1], v);
    }
  }

  /** The first loop of Render: a map of sections and the list of its keys. */
  method GroupByVersion(reports: seq<Report>) returns (byVersion: map<string, seq<Report>>, versionOrder: seq<string>)
    ensures versionOrder == Versions(reports)
    ensures forall v :: v in byVersion <==> v in versionOrder
    ensures forall v :: v in byVersion ==> byVersion[v] == Section(reports, v)
  {
    byVersion, versionOrder := map[], [];
    for i := 0 to |reports|
      invariant versionOrder == Versions(reports[..i])
      invariant forall v :: v in byVersion <==> v in versionOrder
      invariant forall v :: v in byVersion ==> byVersion[v] == Section(reports[..i], v)
      invariant forall v :: v !in byVersion ==> Section(reports[..i], v) == []
    {
      var r := reports[i];
      assert reports[..i + 1][..i] == reports[..i];
      if r.version !in byVersion {
        versionOrder := versionOrder + [r.version];
        byVersion := byVersion[r.version := []];
      }
      byVersion := byVersion[r.version := byVersion[r.version] + [r]];
    }
    assert reports[..|reports|] == reports;
  }

  lemma PrintOne(t: Token)
    ensures Print([t]) == Text(t) + "\n"
  {
    PrintSnoc([], t);
    assert [] + [t] == [t];
  }

  lemma PrintHeading(ver: string)
    ensures Print([Blank, VersionLine(ver)]) == "\n" + (VERSION_OPEN + ver + VERSION_CLOSE + "\n")
  {
    PrintOne(Blank);
    PrintSnoc([Blank], VersionLine(ver));
    assert [Blank] + [VersionLine(ver)] == [Blank, VersionLine(ver)];
  }

  lemma PrintFindingsHeading()
    ensures Print([Blank, FindingsTitle]) == "\n" + (FINDINGS_TITLE + "\n")
  {
    PrintOne(Blank);
    PrintSnoc([Blank], FindingsTitle);
    assert [Blank] + [FindingsTitle] == [Blank, FindingsTitle];
  }

  /** Findings as the section loop writes them, with the section's version in place of the report's. */
  function FlaggedAs(ver: string, r: Report): seq<string> {
    Flagged(r.(version := ver))
  }

  lemma {:induction false} FlaggedAlike(ver: string, rs: seq<Report>)
    requires forall r :: r in rs ==> r.version == ver
    ensures FlatMap(r => FlaggedAs(ver, r), rs) == FlatMap(Flagged, rs)
  {
    if rs != [] {
      FlaggedAlike(ver, rs[..|rs| - 1]);
    }
  }

  lemma ItemStep(task: string, lines: seq<string>, k: nat)
    requires k < |lines|
    ensures Print([TaskLine(task)] + Items(lines[..k + 1]))
         == Print([TaskLine(task)] + Items(lines[..k])) + (BULLET + lines[k] + "\n")
  {
    var done := [TaskLine(task)] + Items(lines[..k]);
    PrintSnoc(done, Item(lines[k]));
    assert [TaskLine(task)] + Items(lines[..k + 1]) == done + [Item(lines[k])];
  }

  /** Render's inner loops: one task with its lines, and its findings set aside. */
  method RenderEntry(ver: string, r: Report) returns (b: string, found: seq<string>)
    ensures b == Print([TaskLine(r.task)] + Items(r.lines))
    ensures found == FlaggedAs(ver, r)
  {
    b, found := TASK_OPEN + r.task + TASK_CLOSE + "\n", [];
    PrintOne(TaskLine(r.task));
    assert [TaskLine(r.task)] + Items(r.lines[..0]) == [TaskLine(r.task)];
    for k := 0 to |r.lines|
      invariant b == Print([TaskLine(r.task)] + Items(r.lines[..k]))
    {
      b := b + (BULLET + r.lines[k] + "\n");
      ItemStep(r.task, r.lines, k);
    }
    assert r.lines[..|r.lines|] == r.lines;
    for k := 0 to |r.findings|
      invariant found == FlaggedAs(ver, r)[..k]
    {
      found := found + ["[" + ver + "/" + r.task + "] " + r.findings[k]];
    }
  }

  lemma EntryStep(ver: string, rs: seq<Report>, j: nat)
    requires j < |rs|
    ensures Print(BlockTokens(Part(ver, EntriesOf(rs[..j + 1]))))
         == Print(BlockTokens(Part(ver, EntriesOf(rs[..j])))) + Print([TaskLine(rs[j].task)] + Items(rs[j].lines))
    ensures FlatMap(r => FlaggedAs(ver, r), rs[..j + 1])
        == FlatMap(r => FlaggedAs(ver, r), rs[..j]) + FlaggedAs(ver, rs[j])
  {
    var entry := [TaskLine(rs[j].task)] + Items(rs[j].lines);
    EntriesSnoc(rs, j);
    assert BlockTokens(Part(ver, EntriesOf(rs[..j + 1]))) == BlockTokens(Part(ver, EntriesOf(rs[..j]))) + entry;
    PrintConcat(BlockTokens(Part(ver, EntriesOf(rs[..j]))), entry);
    FlatMapSnoc(r => FlaggedAs(ver, r), rs, j);
  }

  /** Render's section loop body: the version heading and its tasks. */
  method RenderSection(ver: string, rs: seq<Report>) returns (b: string, found: seq<string>)
    ensures b == Print(BlockTokens(Part(ver, EntriesOf(rs))))
    ensures found == FlatMap(r => FlaggedAs(ver, r), rs)
  {
    b, found := "\n" + (VERSION_OPEN + ver + VERSION_CLOSE + "\n"), [];
    PrintHeading(ver);
    assert BlockTokens(Part(ver, EntriesOf(rs[..0]))) == [Blank, VersionLine(ver)];
    for j := 0 to |rs|
      invariant b == Print(BlockTokens(Part(ver, EntriesOf(rs[..j]))))
      invariant found == FlatMap(r => FlaggedAs(ver, r), rs[..j])
    {
      var text, fs := RenderEntry(ver, rs[j]);
      b, found := b + text, found + fs;
      EntryStep(ver, rs, j);
    }
    assert rs[..|rs|] == rs;
  }

  lemma FindingStep(fs: seq<string>, i: nat)
    requires i < |fs|
    ensures Print([Blank, FindingsTitle] + FindingLines(fs[..i + 1]))
         == Print([Blank, FindingsTitle] + FindingLines(fs[..i])) + (DASH + fs[i] + "\n")
  {
    var done := [Blank, FindingsTitle] + FindingLines(fs[..i]);
    PrintSnoc(done, FindingLine(fs[i]));
    assert [Blank, FindingsTitle] + FindingLines(fs[..i + 1]) == done + [FindingLine(fs[i])];
  }

  /** Render's last loop. */
  method RenderFindings(fs: seq<string>) returns (b: string)
    requires fs != []
    ensures b == Print(FindingTokens(fs))
  {
    b := "\n" + (FINDINGS_TITLE + "\n");
    PrintFindingsHeading();
    assert [Blank, FindingsTitle] + FindingLines(fs[..0]) == [Blank, FindingsTitle];
    for i := 0 to |fs|
      invariant b == Print([Blank, FindingsTitle] + FindingLines(fs[..i]))
    {
      b := b + (DASH + fs[i] + "\n");
      FindingStep(fs, i);
    }
    assert fs[..|fs|] == fs;
  }

  /** The digest up to and including the given versions. */
  function Upto(rs: seq<Report>, order: seq<string>): seq<Token> {
    [Title] + PartTokens(PartsOf(rs, order))
  }

  lemma SectionStep(rs: seq<Report>, order: seq<string>, i: nat)
    requires i < |order|
    ensures Print(Upto(rs, order[..i + 1])) == Print(Upto(rs, order[..i])) + Print(BlockTokens(PartOf(rs, order[i])))
    ensures FlatMap(Flagged, Sections(rs, order[..i + 1]))
         == FlatMap(Flagged, Sections(rs, order[..i])) + FlatMap(r => FlaggedAs(order[i], r), Section(rs, order[i]))
  {
    PartsSnoc(rs, order, i);
    assert Upto(rs, order[..i + 1]) == Upto(rs, order[..i]) + BlockTokens(PartOf(rs, order[i]));
    PrintConcat(Upto(rs, order[..i]), BlockTokens(PartOf(rs, order[i])));
    SectionHasVersion(rs, order[i]);
    FlaggedAlike(order[i], Section(rs, order[i]));
    assert order[..i + 1][..i] == order[..i];
    FlatMapConcat(Flagged, Sections(rs, order[..i]), Section(rs, order[i]));
  }

  lemma RenderStart(rs: seq<Report>)
    ensures Print(Upto(rs, [])) == TITLE + "\n"
  {
    PrintOne(Title);
    assert Upto(rs, []) == [Title];
  }

  lemma RenderEnd(rs: seq<Report>)
    ensures RenderText(rs) == Print(Upto(rs, Versions(rs))) + Print(FindingTokens(FlatMap(Flagged, Grouped(rs))))
  {
    PrintConcat(Upto(rs, Versions(rs)), FindingTokens(FlatMap(Flagged, Grouped(rs))));
  }

  method Render(reports: seq<Report>) returns (b: string)
    ensures b == RenderText(reports)
  {
    var byVersion, order := GroupByVersion(reports);
    b := TITLE + "\n";
    var allFindings: seq<string> := [];
    RenderStart(reports);
    for i := 0 to |order|
      invariant b == Print(Upto(reports, order[..i]))
      invariant allFindings == FlatMap(Flagged, Sections(reports, order[..i]))
    {
      var text, found := RenderSection(order[i], byVersion[order[i]]);
      b, allFindings := b + text, allFindings + found;
      SectionStep(reports, order, i);
    }
    assert order[..|order|] == order;
    RenderEnd(reports);
    if |allFindings| > 0 {
      var text := RenderFindings(allFindings);
      b := b + text;
    }
  }
}
