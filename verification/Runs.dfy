/** RunAll: every task on every version, errors counted and reported but never fatal. */
module Runs {
  import opened Wrappers
  import opened Metrics
  import opened Digest
  import opened Grouping
  import opened Tallies

  /** What Task.Run returns: a report's contents, and perhaps an error beside them. */
  datatype TaskResult = TaskResult(lines: seq<string>, findings: seq<string>, error: Option<string>)

  /** One task execution of a run. */
  datatype Cell = Cell(version: string, task: string)

  function Row(v: string, tasks: seq<string>): (cells: seq<Cell>)
    ensures |cells| == |tasks|
  {
    seq(|tasks|, j requires 0 <= j < |tasks| => Cell(v, tasks[j]))
  }

  /** The executions of one run, in order: tasks within versions. */
  function Plan(versions: seq<string>, tasks: seq<string>): (cells: seq<Cell>)
    ensures |cells| == |versions| * |tasks|
  {
    if versions == [] then [] else
      Plan(versions[..|versions| - 1], tasks) + Row(versions[|versions| - 1], tasks)
  }

  function ErrorFinding(task: string, e: string): string {
    "[" + task + "] error: " + e
  }

  /** The report of one execution: a failed task says so after its own findings. */
  function Filed(c: Cell, r: TaskResult): Report {
    Report(c.version, c.task, r.lines, r.findings + if r.error.Some? then [ErrorFinding(c.task, r.error.value)] else [])
  }

  function RunReports(plan: seq<Cell>, outcome: nat -> TaskResult): (rs: seq<Report>)
    ensures |rs| == |plan|
  {
    seq(|plan|, k requires 0 <= k < |plan| => Filed(plan[k], outcome(k)))
  }

  /** The error counters after one execution. */
  function Counted(errors: PairSeries, c: Cell, r: TaskResult): PairSeries {
    var key := (c.task, c.version);
    if r.error.Some? then errors[key := Count(errors, key) + 1] else errors
  }

  function Tally(errors: PairSeries, plan: seq<Cell>, outcome: nat -> TaskResult): PairSeries {
    if plan == [] then errors else
      var init := plan[..|plan| - 1];
      Counted(Tally(errors, init, outcome), plan[|init|], outcome(|init|))
  }

  /** The cells whose execution failed, with multiplicity. */
  function Failures(plan: seq<Cell>, outcome: nat -> TaskResult): multiset<Cell> {
    if plan == [] then multiset{} else
      Failures(plan[..|plan| - 1], outcome)
      + if outcome(|plan| - 1).error.Some? then multiset{plan[|plan| - 1]} else multiset{}
  }

  /** Every counter grows by the number of failed executions of its task on its version, and by nothing else. */
  lemma {:induction false} TallyCountsFailures(errors: PairSeries, plan: seq<Cell>,
                                               outcome: nat -> TaskResult, c: Cell)
    ensures Count(Tally(errors, plan, outcome), (c.task, c.version))
         == Count(errors, (c.task, c.version)) + Failures(plan, outcome)[c]
  {
    if plan != [] {
      TallyCountsFailures(errors, plan[..|plan| - 1], outcome, c);
    }
  }

  lemma PlanSnoc(versions: seq<string>, tasks: seq<string>, i: nat)
    requires i < |versions|
    ensures Plan(versions[..i + 1], tasks) == Plan(versions[..i], tasks) + Row(versions[i], tasks)
  {
    assert versions[..i + 1][..i] == versions[..i];
  }

  lemma RunStep(done: seq<Cell>, c: Cell, outcome: nat -> TaskResult, errors: PairSeries)
    ensures RunReports(done + [c], outcome) == RunReports(done, outcome) + [Filed(c, outcome(|done|))]
    ensures Tally(errors, done + [c], outcome) == Counted(Tally(errors, done, outcome), c, outcome(|done|))
  {
    assert (done + [c])[..|done|] == done;
  }

  /** The body of RunAll's inner loop. */
  method RunOne(m: Registry, version: string, task: string, result: TaskResult) returns (rep: Report)
    modifies m`errorsTotal
    ensures rep == Filed(Cell(version, task), result)
    ensures m.errorsTotal == Counted(old(m.errorsTotal), Cell(version, task), result)
  {
    var findings := result.findings;
    if result.error.Some? {
      var key := (task, version);
      m.errorsTotal := m.errorsTotal[key := Count(m.errorsTotal, key) + 1];
      findings := findings + ["[" + task + "] error: " + result.error.value];
    }
    rep := Report(version, task, result.lines, findings);
  }

  /** outcome(k) is what the k-th execution of this run returned. */
  method RunAll(m: Registry, versions: seq<string>, tasks: seq<string>, outcome: nat -> TaskResult)
    returns (reports: seq<Report>)
    modifies m`errorsTotal
    ensures reports == RunReports(Plan(versions, tasks), outcome)
    ensures m.errorsTotal == Tally(old(m.errorsTotal), Plan(versions, tasks), outcome)
  {
    reports := [];
    ghost var done: seq<Cell> := [];
    for i := 0 to |versions|
      invariant done == Plan(versions[..i], tasks)
      invariant reports == RunReports(done, outcome)
      invariant m.errorsTotal == Tally(old(m.errorsTotal), done, outcome)
    {
      ghost var before := done;
      for j := 0 to |tasks|
        invariant done == before + Row(versions[i], tasks)[..j]
        invariant reports == RunReports(done, outcome)
        invariant m.errorsTotal == Tally(old(m.errorsTotal), done, outcome)
      {
        var rep := RunOne(m, versions[i], tasks[j], outcome(|reports|));
        reports := reports + [rep];
        RunStep(done, Cell(versions[i], tasks[j]), outcome, old(m.errorsTotal));
        done := done + [Cell(versions[i], tasks[j])];
      }
      PlanSnoc(versions, tasks, i);
    }
    assert versions[..|versions|] == versions;
  }

  /** Execution i * |tasks| + j is task j on version i. */
  lemma {:induction false} PlanAt(versions: seq<string>, tasks: seq<string>, i: nat, j: nat)
    requires i < |versions| && j < |tasks|
    ensures 0 <= i * |tasks| + j < |Plan(versions, tasks)|
    ensures Plan(versions, tasks)[i * |tasks| + j] == Cell(versions[i], tasks[j])
  {
    var n := |versions| - 1;
    if i < n {
      PlanAt(versions[..n], tasks, i, j);
    } else {
      assert |Plan(versions[..n], tasks)| == n * |tasks|;
    }
  }

  lemma {:induction false} PlanVersions(versions: seq<string>, tasks: seq<string>)
    ensures forall c :: c in Plan(versions, tasks) ==> c.version in versions
  {
    if versions != [] {
      PlanVersions(versions[..|versions| - 1], tasks);
    }
  }

  /** The reports of all tasks on one version, the first of them being the run's execution number start. */
  function RowReports(v: string, tasks: seq<string>, outcome: nat -> TaskResult, start: nat): (rs: seq<Report>)
    ensures |rs| == |tasks| && forall r :: r in rs ==> r.version == v
  {
    seq(|tasks|, j requires 0 <= j < |tasks| => Filed(Cell(v, tasks[j]), outcome(start + j)))
  }

  /** A run over one more version appends that version's reports. */
  lemma RunSplits(init: seq<string>, v: string, tasks: seq<string>, outcome: nat -> TaskResult)
    ensures RunReports(Plan(init + [v], tasks), outcome)
         == RunReports(Plan(init, tasks), outcome) + RowReports(v, tasks, outcome, |init| * |tasks|)
  {
    assert (init + [v])[..|init|] == init;
    RunAppend(Plan(init, tasks), v, tasks, outcome);
  }

  lemma RunAppend(p: seq<Cell>, v: string, tasks: seq<string>, outcome: nat -> TaskResult)
    ensures RunReports(p + Row(v, tasks), outcome) == RunReports(p, outcome) + RowReports(v, tasks, outcome, |p|)
  {
    var q := p + Row(v, tasks);
    forall k | 0 <= k < |q|
      ensures RunReports(q, outcome)[k] == (RunReports(p, outcome) + RowReports(v, tasks, outcome, |p|))[k]
    {
      if k >= |p| {
        assert q[k] == Cell(v, tasks[k - |p|]);
      }
    }
  }

  lemma RunVersions(versions: seq<string>, tasks: seq<string>, outcome: nat -> TaskResult)
    ensures forall r :: r in RunReports(Plan(versions, tasks), outcome) ==> r.version in versions
  {
    PlanVersions(versions, tasks);
    var plan, rs := Plan(versions, tasks), RunReports(Plan(versions, tasks), outcome);
    forall r | r in rs
      ensures r.version in versions
    {
      var k :| 0 <= k < |rs| && rs[k] == r;
      assert plan[k] in plan && r == Filed(plan[k], outcome(k));
    }
  }

  lemma {:induction false} RunIsGrouped(versions: seq<string>, tasks: seq<string>, outcome: nat -> TaskResult)
    requires Distinct(versions) && tasks != []
    ensures var rs := RunReports(Plan(versions, tasks), outcome);
      Versions(rs) == versions && Grouped(rs) == rs
  {
    if versions != [] {
      var init, v := versions[..|versions| - 1], versions[|versions| - 1];
      RunIsGrouped(init, tasks, outcome);
      assert versions == init + [v] && v !in init;
      RunSplits(init, v, tasks, outcome);
      RunVersions(init, tasks, outcome);
      ExtendGrouped(RunReports(Plan(init, tasks), outcome), RowReports(v, tasks, outcome, |init| * |tasks|), init, v);
    }
  }

  lemma ExtendGrouped(a: seq<Report>, b: seq<Report>, order: seq<string>, v: string)
    requires Versions(a) == order && Grouped(a) == a && v !in order
    requires b != [] && (forall r :: r in a ==> r.version != v) && forall r :: r in b ==> r.version == v
    ensures Versions(a + b) == order + [v] && Grouped(a + b) == a + b
  {
    VersionsOfBlock(a, b, v);
    GroupedBlock(a, b, order, v);
  }

  /** Grouping a grouped list followed by one new version's reports. */
  lemma GroupedBlock(a: seq<Report>, b: seq<Report>, order: seq<string>, v: string)
    requires v !in order && (forall r :: r in a ==> r.version != v) && forall r :: r in b ==> r.version == v
    requires Sections(a, order) == a
    ensures Sections(a + b, order + [v]) == a + b
  {
    SectionsBeforeBlock(a, b, order, v);
    SectionOfBlock(a, b, v);
    assert (order + [v])[..|order|] == order;
  }

  lemma {:induction false} SectionsBeforeBlock(a: seq<Report>, b: seq<Report>, order: seq<string>, v: string)
    requires v !in order && forall r :: r in b ==> r.version == v
    ensures Sections(a + b, order) == Sections(a, order)
  {
    if order != [] {
      SectionsBeforeBlock(a, b, order[..|order| - 1], v);
      assert order[|order| - 1] in order;
      SectionBeforeBlock(a, b, v, order[|order| - 1]);
    }
  }

  /** The section of a version holds its executions, task by task. */
  lemma {:induction false} RunSection(versions: seq<string>, tasks: seq<string>, outcome: nat -> TaskResult, i: nat)
    requires Distinct(versions) && i < |versions|
    ensures Section(RunReports(Plan(versions, tasks), outcome), versions[i])
         == RowReports(versions[i], tasks, outcome, i * |tasks|)
  {
    var n := |versions| - 1;
    var init, v := versions[..n], versions[n];
    assert versions == init + [v] && v !in init;
    var a, b := RunReports(Plan(init, tasks), outcome), RowReports(v, tasks, outcome, n * |tasks|);
    RunSplits(init, v, tasks, outcome);
    RunVersions(init, tasks, outcome);
    if i < n {
      RunSection(init, tasks, outcome, i);
      SectionBeforeBlock(a, b, v, versions[i]);
    } else {
      SectionOfBlock(a, b, v);
    }
  }

  /**
    A run's digest has one part per version, in configuration order, exactly if names are distinct and there is a
    task.
   */
  lemma RunThenRender(versions: seq<string>, tasks: seq<string>, outcome: nat -> TaskResult)
    ensures Versions(RunReports(Plan(versions, tasks), outcome)) == versions
       <==> Distinct(versions) && (tasks != [] || versions == [])
  {
    var rs := RunReports(Plan(versions, tasks), outcome);
    VersionsByFirstAppearance(rs);
    if Distinct(versions) && tasks != [] {
      RunIsGrouped(versions, tasks, outcome);
    }
    if tasks == [] {
      assert |rs| == |versions| * 0;
      assert rs == [];
    }
  }

  /** Then part i lists every task's execution on version i in order, and findings follow execution order. */
  lemma RunDigest(versions: seq<string>, tasks: seq<string>, outcome: nat -> TaskResult, i: nat)
    requires Distinct(versions) && tasks != [] && i < |versions|
    ensures var rs := RunReports(Plan(versions, tasks), outcome);
      && |SheetOf(rs).parts| == |versions|
      && SheetOf(rs).parts[i] == Part(versions[i], EntriesOf(RowReports(versions[i], tasks, outcome, i * |tasks|)))
      && SheetOf(rs).findings == FlatMap(Flagged, rs)
  {
    RunIsGrouped(versions, tasks, outcome);
    RunSection(versions, tasks, outcome, i);
    GroupedSheet(RunReports(Plan(versions, tasks), outcome), i);
  }

  lemma GroupedSheet(rs: seq<Report>, i: nat)
    requires Grouped(rs) == rs && i < |Versions(rs)|
    ensures |SheetOf(rs).parts| == |Versions(rs)|
    ensures SheetOf(rs).parts[i] == Part(Versions(rs)[i], EntriesOf(Section(rs, Versions(rs)[i])))
    ensures SheetOf(rs).findings == FlatMap(Flagged, rs)
  {
  }

  // ---------- what a run reports, spelled out ----------

  /** What is filed for one execution. */
  ghost predicate Files(r: Report, version: string, task: string, result: TaskResult) {
    && r.version == version && r.task == task && r.lines == result.lines
    && result.findings <= r.findings
    && (result.error.None? <==> |r.findings| == |result.findings|)
    && (result.error.Some? ==>
          && |r.findings| == |result.findings| + 1
          && r.findings[|result.findings|] == "[" + task + "] error: " + result.error.value)
  }

  lemma FiledFiles(c: Cell, r: TaskResult)
    ensures Files(Filed(c, r), c.version, c.task, r)
  {
  }

  /**
    Report i * |tasks| + j of a run carries version i, task j, that execution's lines and its findings, and after them
    one finding more exactly if the execution failed, with the task's name and the error.
   */
  lemma ReportAt(versions: seq<string>, tasks: seq<string>, outcome: nat -> TaskResult, i: nat, j: nat)
    requires i < |versions| && j < |tasks|
    ensures var rs, k := RunReports(Plan(versions, tasks), outcome), i * |tasks| + j;
      0 <= k < |rs| && Files(rs[k], versions[i], tasks[j], outcome(k))
  {
    PlanAt(versions, tasks, i, j);
    var k := i * |tasks| + j;
    FiledFiles(Cell(versions[i], tasks[j]), outcome(k));
  }

  /** An execution's findings as the digest lists them. */
  function OwnLines(c: Cell, r: TaskResult): (ls: seq<string>)
    ensures |ls| == |r.findings|
  {
    seq(|r.findings|, i requires 0 <= i < |r.findings| => "[" + c.version + "/" + c.task + "] " + r.findings[i])
  }

  /** The line for its error, if it failed. */
  function ErrorLine(c: Cell, r: TaskResult): (ls: seq<string>)
    ensures |ls| == if r.error.Some? then 1 else 0
  {
    if r.error.None? then [] else ["[" + c.version + "/" + c.task + "] " + "[" + c.task + "] error: " + r.error.value]
  }

  function OwnFindings(plan: seq<Cell>, outcome: nat -> TaskResult): seq<string> {
    if plan == [] then [] else
      OwnFindings(plan[..|plan| - 1], outcome) + OwnLines(plan[|plan| - 1], outcome(|plan| - 1))
  }

  function ErrorLines(plan: seq<Cell>, outcome: nat -> TaskResult): seq<string> {
    if plan == [] then [] else
      ErrorLines(plan[..|plan| - 1], outcome) + ErrorLine(plan[|plan| - 1], outcome(|plan| - 1))
  }

  lemma {:induction false} ErrorLinesCount(plan: seq<Cell>, outcome: nat -> TaskResult)
    ensures |ErrorLines(plan, outcome)| == |Failures(plan, outcome)|
  {
    if plan != [] {
      ErrorLinesCount(plan[..|plan| - 1], outcome);
    }
  }

  lemma FlaggedFiled(c: Cell, r: TaskResult)
    ensures Flagged(Filed(c, r)) == OwnLines(c, r) + ErrorLine(c, r)
  {
    var fs := Filed(c, r).findings;
    var prefix := "[" + c.version + "/" + c.task + "] ";
    assert forall i :: 0 <= i < |fs| ==> Flagged(Filed(c, r))[i] == prefix + fs[i];
    if r.error.Some? {
      var e := "[" + c.task + "] error: " + r.error.value;
      assert fs[|r.findings|] == e;
      assert prefix + e == ErrorLine(c, r)[0];
    }
  }

  lemma BothGrow<T>(all: seq<T>, a: seq<T>, b: seq<T>, x: seq<T>, y: seq<T>)
    requires multiset(all) == multiset(a) + multiset(b)
    ensures multiset(all + (x + y)) == multiset(a + x) + multiset(b + y)
  {
  }

  lemma FlaggedStep(plan: seq<Cell>, c: Cell, outcome: nat -> TaskResult)
    ensures FlatMap(Flagged, RunReports(plan + [c], outcome))
         == FlatMap(Flagged, RunReports(plan, outcome)) + Flagged(Filed(c, outcome(|plan|)))
  {
    var rs := RunReports(plan + [c], outcome);
    assert rs[..|plan|] == RunReports(plan, outcome);
  }

  lemma {:induction false} FlaggedRun(plan: seq<Cell>, outcome: nat -> TaskResult)
    ensures multiset(FlatMap(Flagged, RunReports(plan, outcome)))
         == multiset(OwnFindings(plan, outcome)) + multiset(ErrorLines(plan, outcome))
  {
    if plan != [] {
      var init, c, r := plan[..|plan| - 1], plan[|plan| - 1], outcome(|plan| - 1);
      FlaggedRun(init, outcome);
      FlaggedStep(init, c, outcome);
      FlaggedFiled(c, r);
      assert plan == init + [c];
      BothGrow(FlatMap(Flagged, RunReports(init, outcome)), OwnFindings(init, outcome), ErrorLines(init, outcome),
               OwnLines(c, r), ErrorLine(c, r));
    }
  }

  /**
    The findings list of a run's digest: every finding of every execution under its version and task, and one error line
    per failed execution, and nothing else.
   */
  lemma DigestFindings(versions: seq<string>, tasks: seq<string>, outcome: nat -> TaskResult)
    ensures var plan := Plan(versions, tasks);
      var findings := SheetOf(RunReports(plan, outcome)).findings;
      && multiset(findings) == multiset(OwnFindings(plan, outcome)) + multiset(ErrorLines(plan, outcome))
      && |findings| == |OwnFindings(plan, outcome)| + |Failures(plan, outcome)|
  {
    var plan := Plan(versions, tasks);
    var rs := RunReports(plan, outcome);
    DigestConserves(rs);
    FlaggedRun(plan, outcome);
    ErrorLinesCount(plan, outcome);
    CountsAdd(SheetOf(rs).findings, OwnFindings(plan, outcome), ErrorLines(plan, outcome));
  }

  lemma CountsAdd(all: seq<string>, a: seq<string>, b: seq<string>)
    requires multiset(all) == multiset(a) + multiset(b)
    ensures |all| == |a| + |b|
  {
    assert |all| == |multiset(all)| && |a| == |multiset(a)| && |b| == |multiset(b)|;
  }

  /** Part i lists these executions' lines under these tasks. */
  ghost predicate Lists(part: Part, version: string, tasks: seq<string>, outcome: nat -> TaskResult, start: nat) {
    && part.version == version && |part.entries| == |tasks|
    && forall j :: 0 <= j < |tasks| ==> part.entries[j] == Entry(tasks[j], outcome(start + j).lines)
  }

  lemma RowLists(part: Part, v: string, tasks: seq<string>, outcome: nat -> TaskResult, start: nat)
    requires part == Part(v, EntriesOf(RowReports(v, tasks, outcome, start)))
    ensures Lists(part, v, tasks, outcome, start)
  {
  }

  /** And its body lists, under version i and each task, exactly that execution's lines. */
  lemma DigestEntries(versions: seq<string>, tasks: seq<string>, outcome: nat -> TaskResult, i: nat, start: nat)
    requires Distinct(versions) && tasks != [] && i < |versions| && start == i * |tasks|
    ensures i < |SheetOf(RunReports(Plan(versions, tasks), outcome)).parts| == |versions|
    ensures Lists(SheetOf(RunReports(Plan(versions, tasks), outcome)).parts[i], versions[i], tasks, outcome, start)
  {
    var part := PartAt(versions, tasks, outcome, i, start);
    RowLists(part, versions[i], tasks, outcome, start);
  }

  lemma PartAt(versions: seq<string>, tasks: seq<string>, outcome: nat -> TaskResult, i: nat, start: nat)
    returns (part: Part)
    requires Distinct(versions) && tasks != [] && i < |versions| && start == i * |tasks|
    ensures i < |SheetOf(RunReports(Plan(versions, tasks), outcome)).parts| == |versions|
    ensures part == SheetOf(RunReports(Plan(versions, tasks), outcome)).parts[i]
    ensures part == Part(versions[i], EntriesOf(RowReports(versions[i], tasks, outcome, start)))
  {
    RunDigest(versions, tasks, outcome, i);
    part := SheetOf(RunReports(Plan(versions, tasks), outcome)).parts[i];
  }
}
