/**
  The running service: an initial run, then the quick loop and the daily loop side by side. A loop's run is a sequence
  of task executions, and the two loops interleave between executions in any way.
 */
module Service {
  import opened Wrappers
  import opened Metrics
  import opened Digest
  import opened Runs
  import opened Schedule

  datatype Config = Config(versions: seq<string>, tasks: seq<string>, clock: Option<Clock>)

  function PlanOf(cfg: Config): seq<Cell> {
    Plan(cfg.versions, cfg.tasks)
  }

  /** The initial run counts as a loop that goes round once. */
  datatype Loop = InitialRun | QuickLoop | DailyLoop

  /** Who executes a task: the n-th run of a loop. */
  datatype Owner = Owner(loop: Loop, n: nat)

  datatype Execution = Execution(who: Owner, cell: Cell, result: TaskResult)

  /** A run in progress holds the reports filed so far. */
  datatype Runner = Idle | Running(reports: seq<Report>)

  datatype DailyState = Scheduling | Waiting(target: int) | Working(target: int, reports: seq<Report>)

  datatype State = State(
    now: int,
    initial: Runner,
    quick: Runner,
    daily: DailyState,
    errors: PairSeries,
    digests: seq<string>,
    // what happened so far, kept for the statements below
    quickRuns: nat,
    log: seq<Execution>,
    scheduledAt: seq<int>,
    targets: seq<int>)

  datatype Event =
    | Advance(later: int)
    | InitialTask(r: TaskResult)
    | InitialEnd
    | QuickStart
    | QuickTask(r: TaskResult)
    | QuickEnd
    | ScheduleDaily(target: int)
    | DailyFire
    | DailyTask(r: TaskResult)
    | DailyPost

  function Start(now: int): State {
    State(now, Running([]), Idle, Scheduling, map[], [], 0, [], [], [])
  }

  function Reports(r: Runner): seq<Report> {
    if r.Running? then r.reports else []
  }

  /** What the loop's run in progress has filed so far. */
  function Begun(s: State, l: Loop): seq<Report> {
    match l
    case InitialRun => Reports(s.initial)
    case QuickLoop => Reports(s.quick)
    case DailyLoop => if s.daily.Working? then s.daily.reports else []
  }

  /** How many runs the loop has completed. */
  function Done(s: State, l: Loop): nat {
    match l
    case InitialRun => if s.initial.Idle? then 1 else 0
    case QuickLoop => s.quickRuns
    case DailyLoop => |s.digests|
  }

  predicate Unfinished(cfg: Config, reports: seq<Report>) {
    |reports| < |PlanOf(cfg)|
  }

  /** The loops start when the initial run is over; a timer fires at its target or later. */
  ghost predicate Enabled(cfg: Config, s: State, e: Event) {
    match e
    case Advance(later) => s.now <= later
    case InitialTask(_) => s.initial.Running? && Unfinished(cfg, s.initial.reports)
    case InitialEnd => s.initial.Running? && !Unfinished(cfg, s.initial.reports)
    case QuickStart => s.initial.Idle? && s.quick.Idle?
    case QuickTask(_) => s.quick.Running? && Unfinished(cfg, s.quick.reports)
    case QuickEnd => s.quick.Running? && !Unfinished(cfg, s.quick.reports)
    case ScheduleDaily(target) => s.initial.Idle? && s.daily.Scheduling? && IsNext(s.now, cfg.clock, target)
    case DailyFire => s.daily.Waiting? && s.daily.target <= s.now
    case DailyTask(_) => s.daily.Working? && Unfinished(cfg, s.daily.reports)
    case DailyPost => s.daily.Working? && !Unfinished(cfg, s.daily.reports)
  }

  /** The execution that the loop's run in progress makes next, with its result. */
  function NextOf(cfg: Config, s: State, l: Loop, r: TaskResult): Execution
    requires Unfinished(cfg, Begun(s, l))
  {
    Execution(Owner(l, Done(s, l)), PlanOf(cfg)[|Begun(s, l)|], r)
  }

  /** That execution is counted, logged and filed. */
  function Execute(cfg: Config, s: State, l: Loop, r: TaskResult): (State, seq<Report>)
    requires Unfinished(cfg, Begun(s, l))
  {
    var x := NextOf(cfg, s, l, r);
    (s.(errors := Counted(s.errors, x.cell, r), log := s.log + [x]), Begun(s, l) + [Filed(x.cell, r)])
  }

  ghost function Apply(cfg: Config, s: State, e: Event): State
    requires Enabled(cfg, s, e)
  {
    match e
    case Advance(later) => s.(now := later)
    case InitialTask(r) =>
      var (t, reports) := Execute(cfg, s, InitialRun, r);
      t.(initial := Running(reports))
    case InitialEnd => s.(initial := Idle)
    case QuickStart => s.(quick := Running([]))
    case QuickTask(r) =>
      var (t, reports) := Execute(cfg, s, QuickLoop, r);
      t.(quick := Running(reports))
    case QuickEnd => s.(quick := Idle, quickRuns := s.quickRuns + 1)
    case ScheduleDaily(target) =>
      s.(daily := Waiting(target), scheduledAt := s.scheduledAt + [s.now], targets := s.targets + [target])
    case DailyFire => s.(daily := Working(s.daily.target, []))
    case DailyTask(r) =>
      var (t, reports) := Execute(cfg, s, DailyLoop, r);
      t.(daily := Working(s.daily.target, reports))
    case DailyPost => s.(daily := Scheduling, digests := s.digests + [RenderText(s.daily.reports)])
  }

  /** A run of the service: events, each enabled where it happens. */
  ghost predicate Legal(cfg: Config, start: int, es: seq<Event>)
    decreases |es|, 0
  {
    es == [] || (Legal(cfg, start, es[..|es| - 1]) && Enabled(cfg, After(cfg, start, es[..|es| - 1]), es[|es| - 1]))
  }

  ghost function After(cfg: Config, start: int, es: seq<Event>): State
    requires Legal(cfg, start, es)
    decreases |es|, 1
  {
    if es == [] then Start(start) else Apply(cfg, After(cfg, start, es[..|es| - 1]), es[|es| - 1])
  }

  // ---------- what the log says ----------

  function FailuresOf(log: seq<Execution>, c: Cell): nat {
    if log == [] then 0 else
      var last := log[|log| - 1];
      FailuresOf(log[..|log| - 1], c) + if last.cell == c && last.result.error.Some? then 1 else 0
  }

  /** The reports of one owner's executions, in order. */
  function FiledBy(log: seq<Execution>, who: Owner): seq<Report> {
    if log == [] then [] else
      var last := log[|log| - 1];
      FiledBy(log[..|log| - 1], who) + if last.who == who then [Filed(last.cell, last.result)] else []
  }

  /** The cells of one owner's executions, in order. */
  function CellsOf(log: seq<Execution>, who: Owner): seq<Cell> {
    if log == [] then [] else
      var last := log[|log| - 1];
      CellsOf(log[..|log| - 1], who) + if last.who == who then [last.cell] else []
  }

  /** What one owner's executions returned, in order. */
  function ResultsOf(log: seq<Execution>, who: Owner): seq<TaskResult> {
    if log == [] then [] else
      var last := log[|log| - 1];
      ResultsOf(log[..|log| - 1], who) + if last.who == who then [last.result] else []
  }

  /** The same as RunAll's argument: the k-th execution's result. */
  function OutcomeOf(log: seq<Execution>, who: Owner): nat -> TaskResult {
    var results := ResultsOf(log, who);
    (k: nat) => if k < |results| then results[k] else TaskResult([], [], None)
  }

  /** An owner's reports are those of a sequential run over its cells. */
  lemma {:induction false} FiledIsRun(log: seq<Execution>, who: Owner)
    ensures |ResultsOf(log, who)| == |CellsOf(log, who)|
    ensures FiledBy(log, who) == RunReports(CellsOf(log, who), OutcomeOf(log, who))
  {
    if log != [] {
      FiledIsRun(log[..|log| - 1], who);
    }
  }

  // ---------- invariants ----------

  ghost predicate CountersAgree(s: State) {
    forall c: Cell :: Count(s.errors, (c.task, c.version)) == FailuresOf(s.log, c)
  }

  /**
    A loop's completed runs executed the plan from end to end, its run in progress a prefix of it, and no later run
    anything.
   */
  ghost predicate RunsOfLoop(plan: seq<Cell>, log: seq<Execution>, l: Loop, done: nat, begun: nat) {
    && begun <= |plan|
    && (forall n :: 0 <= n < done ==> CellsOf(log, Owner(l, n)) == plan)
    && CellsOf(log, Owner(l, done)) == plan[..begun]
    && forall n :: n > done ==> CellsOf(log, Owner(l, n)) == []
  }

  ghost predicate RunsAgree(cfg: Config, s: State) {
    forall l: Loop :: RunsOfLoop(PlanOf(cfg), s.log, l, Done(s, l), |Begun(s, l)|)
  }

  function Daily(n: nat): Owner {
    Owner(DailyLoop, n)
  }

  /** The n-th digest is the rendering of the n-th daily run's own reports. */
  ghost predicate DigestAgrees(render: seq<Report> -> string, log: seq<Execution>, digests: seq<string>, n: nat) {
    n < |digests| && digests[n] == render(FiledBy(log, Daily(n)))
  }

  /** So is every digest, the run in progress has filed what it holds, and later runs nothing. */
  ghost predicate DigestsAgree(render: seq<Report> -> string, log: seq<Execution>, digests: seq<string>,
                               begun: seq<Report>) {
    && (forall n :: 0 <= n < |digests| ==> DigestAgrees(render, log, digests, n))
    && FiledBy(log, Daily(|digests|)) == begun
    && forall n :: n > |digests| ==> FiledBy(log, Daily(n)) == []
  }

  ghost predicate DailyAgrees(s: State) {
    DigestsAgree(RenderText, s.log, s.digests, Begun(s, DailyLoop))
  }

  /** One target per digest, plus the one pending; nothing is scheduled before the previous target has passed. */
  ghost predicate TargetsAgree(cfg: Config, s: State) {
    && |s.targets| == |s.scheduledAt| == |s.digests| + (if s.daily.Scheduling? then 0 else 1)
    && (!s.daily.Scheduling? ==> s.targets[|s.targets| - 1] == s.daily.target)
    && (s.daily.Working? || (s.daily.Scheduling? && s.targets != []) ==> s.targets[|s.targets| - 1] <= s.now)
    && (forall k :: 0 <= k < |s.scheduledAt| ==> s.scheduledAt[k] <= s.now)
    && (forall k :: 0 <= k < |s.targets| ==> IsNext(s.scheduledAt[k], cfg.clock, s.targets[k]))
    && forall k :: 0 <= k < |s.targets| - 1 ==> s.targets[k] <= s.scheduledAt[k + 1]
  }

  lemma ExecuteCounts(cfg: Config, s: State, l: Loop, r: TaskResult)
    requires CountersAgree(s) && Unfinished(cfg, Begun(s, l))
    ensures CountersAgree(Execute(cfg, s, l, r).0)
  {
    var t := Execute(cfg, s, l, r).0;
    assert t.log[..|t.log| - 1] == s.log;
    forall c: Cell
      ensures Count(t.errors, (c.task, c.version)) == FailuresOf(t.log, c)
    {
      assert Count(s.errors, (c.task, c.version)) == FailuresOf(s.log, c);
    }
  }

  lemma StepKeepsCounters(cfg: Config, s: State, e: Event)
    requires Enabled(cfg, s, e) && CountersAgree(s)
    ensures CountersAgree(Apply(cfg, s, e))
  {
    match e
    case InitialTask(r) => ExecuteCounts(cfg, s, InitialRun, r);
    case QuickTask(r) => ExecuteCounts(cfg, s, QuickLoop, r);
    case DailyTask(r) => ExecuteCounts(cfg, s, DailyLoop, r);
    case _ =>
  }

  lemma LogOwn(log: seq<Execution>, x: Execution)
    ensures FiledBy(log + [x], x.who) == FiledBy(log, x.who) + [Filed(x.cell, x.result)]
    ensures CellsOf(log + [x], x.who) == CellsOf(log, x.who) + [x.cell]
  {
    assert (log + [x])[..|log|] == log;
  }

  /** An execution leaves the history of every other owner alone. */
  lemma LogOther(log: seq<Execution>, x: Execution, who: Owner)
    requires x.who != who
    ensures FiledBy(log + [x], who) == FiledBy(log, who) && CellsOf(log + [x], who) == CellsOf(log, who)
  {
    assert (log + [x])[..|log|] == log;
  }

  // ---------- every loop's runs ----------

  lemma PlanPrefixes(plan: seq<Cell>, k: nat)
    requires k <= |plan|
    ensures plan[..0] == [] && plan[..|plan|] == plan
    ensures k < |plan| ==> plan[..k + 1] == plan[..k] + [plan[k]]
  {
  }

  lemma NextCell(plan: seq<Cell>, log: seq<Execution>, x: Execution, l: Loop, done: nat, begun: nat)
    requires RunsOfLoop(plan, log, l, done, begun) && begun < |plan|
    requires x.who == Owner(l, done) && x.cell == plan[begun]
    ensures RunsOfLoop(plan, log + [x], l, done, begun + 1)
  {
    PlanPrefixes(plan, begun);
    LogOwn(log, x);
    forall n: nat | n != done
      ensures CellsOf(log + [x], Owner(l, n)) == CellsOf(log, Owner(l, n))
    {
      LogOther(log, x, Owner(l, n));
    }
  }

  lemma OthersCell(plan: seq<Cell>, log: seq<Execution>, x: Execution, l: Loop, done: nat, begun: nat)
    requires RunsOfLoop(plan, log, l, done, begun) && x.who.loop != l
    ensures RunsOfLoop(plan, log + [x], l, done, begun)
  {
    forall n: nat
      ensures CellsOf(log + [x], Owner(l, n)) == CellsOf(log, Owner(l, n))
    {
      LogOther(log, x, Owner(l, n));
    }
  }

  lemma RunCompleted(plan: seq<Cell>, log: seq<Execution>, l: Loop, done: nat)
    requires RunsOfLoop(plan, log, l, done, |plan|)
    ensures RunsOfLoop(plan, log, l, done + 1, 0)
  {
    PlanPrefixes(plan, 0);
  }

  ghost predicate Stays(s: State, t: State, l: Loop) {
    Done(t, l) == Done(s, l) && Begun(t, l) == Begun(s, l)
  }

  /** t is s after the loop's next execution. */
  ghost predicate Executes(cfg: Config, s: State, t: State, l: Loop, r: TaskResult) {
    && Unfinished(cfg, Begun(s, l))
    && t.log == s.log + [NextOf(cfg, s, l, r)]
    && Done(t, l) == Done(s, l) && |Begun(t, l)| == |Begun(s, l)| + 1
    && forall k: Loop :: k != l ==> Stays(s, t, k)
  }

  /** t is s after the end of the loop's run. */
  ghost predicate Ends(cfg: Config, s: State, t: State, l: Loop) {
    && t.log == s.log && !Unfinished(cfg, Begun(s, l))
    && Done(t, l) == Done(s, l) + 1 && Begun(t, l) == []
    && forall k: Loop :: k != l ==> Stays(s, t, k)
  }

  /** Every event is an execution of some loop, the end of some loop's run, or neither. */
  lemma StepKinds(cfg: Config, s: State, e: Event)
    requires Enabled(cfg, s, e)
    ensures var t := Apply(cfg, s, e);
      match e
      case InitialTask(r) => Executes(cfg, s, t, InitialRun, r)
      case InitialEnd => Ends(cfg, s, t, InitialRun)
      case QuickTask(r) => Executes(cfg, s, t, QuickLoop, r)
      case QuickEnd => Ends(cfg, s, t, QuickLoop)
      case DailyTask(r) => Executes(cfg, s, t, DailyLoop, r)
      case DailyPost => Ends(cfg, s, t, DailyLoop)
      case _ => t.log == s.log && forall k: Loop :: Stays(s, t, k)
  {
  }

  lemma ExecuteKeepsRuns(cfg: Config, s: State, t: State, l: Loop, r: TaskResult)
    requires RunsAgree(cfg, s) && Executes(cfg, s, t, l, r)
    ensures RunsAgree(cfg, t)
  {
    var plan := PlanOf(cfg);
    var x := NextOf(cfg, s, l, r);
    forall k: Loop
      ensures RunsOfLoop(plan, t.log, k, Done(t, k), |Begun(t, k)|)
    {
      assert RunsOfLoop(plan, s.log, k, Done(s, k), |Begun(s, k)|);
      if k == l {
        NextCell(plan, s.log, x, k, Done(s, k), |Begun(s, k)|);
      } else {
        assert Stays(s, t, k);
        OthersCell(plan, s.log, x, k, Done(s, k), |Begun(s, k)|);
      }
    }
  }

  lemma EndKeepsRuns(cfg: Config, s: State, t: State, l: Loop)
    requires RunsAgree(cfg, s) && Ends(cfg, s, t, l)
    ensures RunsAgree(cfg, t)
  {
    forall k: Loop
      ensures RunsOfLoop(PlanOf(cfg), t.log, k, Done(t, k), |Begun(t, k)|)
    {
      assert RunsOfLoop(PlanOf(cfg), s.log, k, Done(s, k), |Begun(s, k)|);
      if k == l {
        RunCompleted(PlanOf(cfg), s.log, l, Done(s, l));
      } else {
        assert Stays(s, t, k);
      }
    }
  }

  lemma QuietKeepsRuns(cfg: Config, s: State, t: State)
    requires RunsAgree(cfg, s) && t.log == s.log && forall k: Loop :: Stays(s, t, k)
    ensures RunsAgree(cfg, t)
  {
    forall k: Loop
      ensures RunsOfLoop(PlanOf(cfg), t.log, k, Done(t, k), |Begun(t, k)|)
    {
      assert RunsOfLoop(PlanOf(cfg), s.log, k, Done(s, k), |Begun(s, k)|) && Stays(s, t, k);
    }
  }

  lemma StepKeepsRuns(cfg: Config, s: State, e: Event)
    requires Enabled(cfg, s, e) && RunsAgree(cfg, s)
    ensures RunsAgree(cfg, Apply(cfg, s, e))
  {
    StepKinds(cfg, s, e);
    var t := Apply(cfg, s, e);
    match e
    case InitialTask(r) => ExecuteKeepsRuns(cfg, s, t, InitialRun, r);
    case InitialEnd => EndKeepsRuns(cfg, s, t, InitialRun);
    case QuickTask(r) => ExecuteKeepsRuns(cfg, s, t, QuickLoop, r);
    case QuickEnd => EndKeepsRuns(cfg, s, t, QuickLoop);
    case DailyTask(r) => ExecuteKeepsRuns(cfg, s, t, DailyLoop, r);
    case DailyPost => EndKeepsRuns(cfg, s, t, DailyLoop);
    case _ => QuietKeepsRuns(cfg, s, t);
  }

  // ---------- the daily loop's digests ----------

  lemma OwnKeepsDigests(render: seq<Report> -> string, log: seq<Execution>, digests: seq<string>, begun: seq<Report>,
                        x: Execution)
    requires DigestsAgree(render, log, digests, begun) && x.who == Daily(|digests|)
    ensures DigestsAgree(render, log + [x], digests, begun + [Filed(x.cell, x.result)])
  {
    LogOwn(log, x);
    forall n: nat | n != |digests|
      ensures FiledBy(log + [x], Daily(n)) == FiledBy(log, Daily(n))
    {
      LogOther(log, x, Daily(n));
    }
    forall n | 0 <= n < |digests|
      ensures DigestAgrees(render, log + [x], digests, n)
    {
      assert DigestAgrees(render, log, digests, n);
    }
  }

  lemma OthersKeepDigests(render: seq<Report> -> string, log: seq<Execution>, digests: seq<string>,
                          begun: seq<Report>, x: Execution)
    requires DigestsAgree(render, log, digests, begun) && x.who.loop != DailyLoop
    ensures DigestsAgree(render, log + [x], digests, begun)
  {
    forall n: nat
      ensures FiledBy(log + [x], Daily(n)) == FiledBy(log, Daily(n))
    {
      LogOther(log, x, Daily(n));
    }
    forall n | 0 <= n < |digests|
      ensures DigestAgrees(render, log + [x], digests, n)
    {
      assert DigestAgrees(render, log, digests, n);
    }
  }

  lemma PostKeepsDigests(render: seq<Report> -> string, log: seq<Execution>, digests: seq<string>, begun: seq<Report>)
    requires DigestsAgree(render, log, digests, begun)
    ensures DigestsAgree(render, log, digests + [render(begun)], [])
  {
    forall n | 0 <= n < |digests| + 1
      ensures DigestAgrees(render, log, digests + [render(begun)], n)
    {
      assert n < |digests| ==> DigestAgrees(render, log, digests, n);
    }
  }

  lemma StepKeepsDaily(cfg: Config, s: State, e: Event)
    requires Enabled(cfg, s, e) && DailyAgrees(s)
    ensures DailyAgrees(Apply(cfg, s, e))
  {
    var begun := Begun(s, DailyLoop);
    match e
    case InitialTask(r) => OthersKeepDigests(RenderText, s.log, s.digests, begun, NextOf(cfg, s, InitialRun, r));
    case QuickTask(r) => OthersKeepDigests(RenderText, s.log, s.digests, begun, NextOf(cfg, s, QuickLoop, r));
    case DailyTask(r) => OwnKeepsDigests(RenderText, s.log, s.digests, begun, NextOf(cfg, s, DailyLoop, r));
    case DailyPost => PostKeepsDigests(RenderText, s.log, s.digests, begun);
    case _ =>
  }

  lemma StepKeepsTargets(cfg: Config, s: State, e: Event)
    requires Enabled(cfg, s, e) && TargetsAgree(cfg, s)
    ensures TargetsAgree(cfg, Apply(cfg, s, e))
  {
  }

  lemma {:induction false} InvariantsHold(cfg: Config, start: int, es: seq<Event>)
    requires Legal(cfg, start, es)
    ensures var s := After(cfg, start, es);
      CountersAgree(s) && RunsAgree(cfg, s) && DailyAgrees(s) && TargetsAgree(cfg, s)
  {
    if es == [] {
      PlanPrefixes(PlanOf(cfg), 0);
    } else {
      var init, e := es[..|es| - 1], es[|es| - 1];
      InvariantsHold(cfg, start, init);
      StepKeepsCounters(cfg, After(cfg, start, init), e);
      StepKeepsRuns(cfg, After(cfg, start, init), e);
      StepKeepsDaily(cfg, After(cfg, start, init), e);
      StepKeepsTargets(cfg, After(cfg, start, init), e);
    }
  }

  // ---------- what every interleaving keeps ----------

  /** Each error counter equals the number of failed executions of its task on its version, by whichever loop. */
  lemma CountersAreExact(cfg: Config, start: int, es: seq<Event>, c: Cell)
    requires Legal(cfg, start, es)
    ensures var s := After(cfg, start, es);
      Count(s.errors, (c.task, c.version)) == FailuresOf(s.log, c)
  {
    InvariantsHold(cfg, start, es);
  }

  /** Every run that any of the loops completes executes every task on every version, once each and in plan order. */
  lemma CompleteRuns(cfg: Config, start: int, es: seq<Event>, l: Loop, n: nat)
    requires Legal(cfg, start, es) && n < Done(After(cfg, start, es), l)
    ensures CellsOf(After(cfg, start, es).log, Owner(l, n)) == Plan(cfg.versions, cfg.tasks)
  {
    InvariantsHold(cfg, start, es);
    var s := After(cfg, start, es);
    assert RunsOfLoop(PlanOf(cfg), s.log, l, Done(s, l), |Begun(s, l)|);
  }

  /** A run in progress has executed a prefix of the plan, and runs not yet begun nothing. */
  lemma IncompleteRuns(cfg: Config, start: int, es: seq<Event>, l: Loop, n: nat)
    requires Legal(cfg, start, es) && n >= Done(After(cfg, start, es), l)
    ensures var s := After(cfg, start, es);
      && |Begun(s, l)| <= |PlanOf(cfg)|
      && CellsOf(s.log, Owner(l, n)) == if n == Done(s, l) then PlanOf(cfg)[..|Begun(s, l)|] else []
  {
    InvariantsHold(cfg, start, es);
    var s := After(cfg, start, es);
    assert RunsOfLoop(PlanOf(cfg), s.log, l, Done(s, l), |Begun(s, l)|);
  }

  /**
    Each digest is what RunAll and Render make of that daily run's own results, whatever the quick loop did meanwhile.
   */
  lemma DigestsAreTheirOwnRuns(cfg: Config, start: int, es: seq<Event>, n: nat)
    requires Legal(cfg, start, es) && n < |After(cfg, start, es).digests|
    ensures var s := After(cfg, start, es);
      && CellsOf(s.log, Daily(n)) == Plan(cfg.versions, cfg.tasks)
      && s.digests[n] == RenderText(RunReports(Plan(cfg.versions, cfg.tasks), OutcomeOf(s.log, Daily(n))))
  {
    CompleteRuns(cfg, start, es, DailyLoop, n);
    InvariantsHold(cfg, start, es);
    assert DigestAgrees(RenderText, After(cfg, start, es).log, After(cfg, start, es).digests, n);
    FiledIsRun(After(cfg, start, es).log, Daily(n));
  }

  /** There is one digest per target, in order, posted no earlier than its target; at most one target is still open. */
  lemma OneDigestPerTarget(cfg: Config, start: int, es: seq<Event>)
    requires Legal(cfg, start, es)
    ensures var s := After(cfg, start, es);
      && |s.digests| <= |s.targets| <= |s.digests| + 1
      && forall n :: 0 <= n < |s.digests| ==> s.targets[n] <= s.now
  {
    TargetsHold(cfg, start, es);
    TargetsPassed(cfg, After(cfg, start, es));
  }

  lemma TargetsPassed(cfg: Config, s: State)
    requires TargetsAgree(cfg, s)
    ensures forall n :: 0 <= n < |s.digests| ==> s.targets[n] <= s.now
  {
    forall n | 0 <= n < |s.digests|
      ensures s.targets[n] <= s.now
    {
      if n < |s.targets| - 1 {
        assert s.scheduledAt[n + 1] <= s.now;
      }
    }
  }

  lemma TargetsHold(cfg: Config, start: int, es: seq<Event>)
    requires Legal(cfg, start, es)
    ensures TargetsAgree(cfg, After(cfg, start, es))
  {
    InvariantsHold(cfg, start, es);
  }

  /** Every target of the daily loop is an instant at which the UTC clock reads the configured hour and minute. */
  lemma TargetsShowClock(cfg: Config, start: int, es: seq<Event>, k: nat)
    requires Legal(cfg, start, es) && cfg.clock.Some? && k < |After(cfg, start, es).targets|
    ensures Shows(After(cfg, start, es).targets[k], cfg.clock.value.0, cfg.clock.value.1)
  {
    TargetsHold(cfg, start, es);
    TargetShown(cfg, After(cfg, start, es), k);
  }

  lemma TargetShown(cfg: Config, s: State, k: nat)
    requires TargetsAgree(cfg, s) && cfg.clock.Some? && k < |s.targets|
    ensures Shows(s.targets[k], cfg.clock.value.0, cfg.clock.value.1)
  {
    assert IsNext(s.scheduledAt[k], cfg.clock, s.targets[k]);
    NextIsFirstShown(s.scheduledAt[k], cfg.clock.value, s.targets[k]);
  }

  /** Targets k and k + 1 are whole days apart, and one day exactly if the loop came back within a day of target k. */
  ghost predicate SpacedByDays(s: State, k: nat) {
    && k + 1 < |s.targets| == |s.scheduledAt|
    && (s.targets[k + 1] - s.targets[k]) % DAY == 0
    && s.targets[k + 1] >= s.targets[k] + DAY
    && (s.targets[k + 1] == s.targets[k] + DAY <==> s.scheduledAt[k + 1] < s.targets[k] + DAY)
  }

  /** Neighbouring targets are a day apart exactly when the loop came back within a day of the first. */
  lemma TargetGap(cfg: Config, start: int, es: seq<Event>, k: nat)
    requires Legal(cfg, start, es) && cfg.clock.Some? && k + 1 < |After(cfg, start, es).targets|
    ensures SpacedByDays(After(cfg, start, es), k)
  {
    TargetsHold(cfg, start, es);
    GapOf(cfg, After(cfg, start, es), k);
  }

  lemma GapOf(cfg: Config, s: State, k: nat)
    requires TargetsAgree(cfg, s) && cfg.clock.Some? && k + 1 < |s.targets|
    ensures SpacedByDays(s, k)
  {
    var target, next := s.targets[k], s.targets[k + 1];
    assert IsNext(s.scheduledAt[k], cfg.clock, target) && IsNext(s.scheduledAt[k + 1], cfg.clock, next);
    assert target <= s.scheduledAt[k + 1];
    NextAfterTarget(target, s.scheduledAt[k + 1], cfg.clock.value, next);
  }

  ghost predicate Prompt(s: State) {
    |s.targets| == |s.scheduledAt| && forall k :: 0 <= k < |s.targets| - 1 ==> s.scheduledAt[k + 1] < s.targets[k] + DAY
  }

  /**
    If every daily run is over within a day of its target, there is one target per day: none skipped, none repeated.
   */
  lemma OneTargetPerDay(cfg: Config, start: int, es: seq<Event>, k: nat)
    requires Legal(cfg, start, es) && cfg.clock.Some? && k < |After(cfg, start, es).targets|
    requires Prompt(After(cfg, start, es))
    ensures After(cfg, start, es).targets[k] == After(cfg, start, es).targets[0] + k * DAY
  {
    TargetsHold(cfg, start, es);
    var s := After(cfg, start, es);
    forall j | 0 < j < |s.targets|
      ensures OneDayLater(s.targets, j)
    {
      PromptGap(cfg, s, j);
    }
    EvenlySpaced(s.targets, k);
  }

  predicate OneDayLater(targets: seq<int>, k: nat) {
    0 < k < |targets| && targets[k] == targets[k - 1] + DAY
  }

  lemma PromptGap(cfg: Config, s: State, k: nat)
    requires TargetsAgree(cfg, s) && Prompt(s) && cfg.clock.Some? && 0 < k < |s.targets|
    ensures OneDayLater(s.targets, k)
  {
    GapOf(cfg, s, k - 1);
    assert s.scheduledAt[k - 1 + 1] < s.targets[k - 1] + DAY;
  }

  lemma {:induction false} EvenlySpaced(targets: seq<int>, k: nat)
    requires k < |targets| && forall j :: 0 < j < |targets| ==> OneDayLater(targets, j)
    ensures targets[k] == targets[0] + k * DAY
  {
    if k > 0 {
      EvenlySpaced(targets, k - 1);
      assert OneDayLater(targets, k);
    }
  }

  /** With an unparsable time of day the schedule drifts: each gap is a day plus the delay of the run before. */
  lemma UnparsedClockDrifts(cfg: Config, start: int, es: seq<Event>, k: nat)
    requires Legal(cfg, start, es) && cfg.clock.None? && k + 1 < |After(cfg, start, es).targets|
    ensures var s := After(cfg, start, es);
      |s.scheduledAt| == |s.targets| && s.targets[k + 1] == s.scheduledAt[k + 1] + DAY >= s.targets[k] + DAY
  {
    InvariantsHold(cfg, start, es);
    var s := After(cfg, start, es);
    assert IsNext(s.scheduledAt[k + 1], cfg.clock, s.targets[k + 1]);
  }
}
