/**
 The runtime of a native operation: planned stages run in order, each stage
 tries its alternative attempts in order, and the first stage that fails ends
 the operation. A detached run keeps a task up to date while it goes.

 What a command answers, what a late-built stage turns out to need, and whether
 the deadline has passed are the host's choice; every command that runs leaves
 an entry in the host's log, in order.
 */
module Stages {
  import opened Wrappers
  import opened Text
  import opened Tasks

  datatype Attempt = Attempt(command: string, args: seq<string>, cwd: string)

  datatype Answered = Answered(stdout: string, stderr: string, exitCode: int, ok: bool)

  /** One command that ran: for which stage of the plan, which attempt, and what came of it. */
  datatype Ran = Ran(stage: nat, attempt: Attempt, result: Answered)

  /** A stage knows its attempts up front, or asks for them once the stages before it succeeded. */
  datatype OpStage = OpStage(name: string, attempts: seq<Attempt>, builtLate: bool, idle: string)

  /** What became of one stage that was reached. */
  datatype Report =
    | Unbuilt(message: string)
    | Idled
    | Executed(attempts: seq<Attempt>, trace: seq<Ran>, result: Answered)
  {
    predicate Success() {
      Idled? || (Executed? && result.ok)
    }
  }

  class Host {
    ghost var log: seq<Ran>
    var expired: bool  // the run's deadline has passed

    constructor ()
      ensures log == [] && !expired
    {
      log, expired := [], false;
    }

    /** Runs one command; while it runs its output streams into the watched task. */
    method RunOpOnce(ghost stage: nat, attempt: Attempt, sink: OpTask?) returns (r: Answered)
      requires sink != null ==> sink.Valid()
      modifies this`log, sink
      ensures log == old(log) + [Ran(stage, attempt, r)]
      ensures sink != null ==> Streamed(sink)
    {
      r := *;
      if sink != null {
        var out := *;
        var _ := sink.Write(out);
      }
      log := log + [Ran(stage, attempt, r)];
    }

    method DeadlineExceeded() returns (b: bool)
      modifies this`expired
      ensures b == expired && (old(expired) ==> expired)
    {
      var passed := *;
      expired := expired || passed;
      b := expired;
    }

    method Build() returns (r: Result<seq<Attempt>, string>) {
      r := *;
    }
  }

  /** Only output was added to the task: its plan, status and history are as they were. */
  twostate predicate Streamed(task: OpTask)
    reads task
  {
    && task.Valid()
    && old(task.stream) <= task.stream
    && task.stages == old(task.stages) && task.status == old(task.status) && task.views == old(task.views)
  }

  /**
   The commands one stage ran: a prefix of its attempts, in order, of which none
   but the last succeeded. A stage that fails has tried every attempt unless the
   deadline passed, and reports its first attempt's output.
   */
  ghost predicate StageTrace(stage: nat, attempts: seq<Attempt>, trace: seq<Ran>, r: Answered, expired: bool) {
    && |trace| <= |attempts|
    && (forall i :: 0 <= i < |trace| ==> trace[i].stage == stage && trace[i].attempt == attempts[i])
    && (forall i :: 0 <= i < |trace| - 1 ==> !trace[i].result.ok)
    && (attempts != [] ==> trace != [])
    && (trace != [] ==> r.ok == trace[|trace| - 1].result.ok)
    && (trace != [] && r.ok ==> r == trace[|trace| - 1].result.(exitCode := 0))
    && (trace != [] && !r.ok ==> r == trace[0].result)
    && (!r.ok && |trace| < |attempts| ==> expired)
    && (attempts == [] ==> r == Answered("", "", 0, true))
  }

  method RunStage(stage: nat, attempts: seq<Attempt>, host: Host, sink: OpTask?)
    returns (r: Answered, trace: seq<Ran>)
    requires sink != null ==> sink.Valid()
    modifies host, sink
    ensures host.log == old(host.log) + trace
    ensures old(host.expired) ==> host.expired
    ensures StageTrace(stage, attempts, trace, r, host.expired)
    ensures sink != null ==> Streamed(sink)
  {
    r, trace := Answered("", "", 0, true), [];
    var i := 0;
    while i < |attempts|
      invariant 0 <= i <= |attempts| && i == |trace|
      invariant host.log == old(host.log) + trace
      invariant old(host.expired) ==> host.expired
      invariant forall j :: 0 <= j < i ==>
                  trace[j].stage == stage && trace[j].attempt == attempts[j] && !trace[j].result.ok
      invariant if i == 0 then r == Answered("", "", 0, true) else r == trace[0].result
      invariant sink != null ==> Streamed(sink)
    {
      var answer := host.RunOpOnce(stage, attempts[i], sink);
      trace := trace + [Ran(stage, attempts[i], answer)];
      if answer.ok {
        return answer.(exitCode := 0), trace;
      }
      if i == 0 {
        r := answer;
      }
      var late := host.DeadlineExceeded();
      if late {
        return;
      }
      i := i + 1;
    }
  }

  /** Joins one stage's output onto what earlier stages produced. */
  function AppendOutput(soFar: string, next: string): string {
    if next == "" then soFar
    else if soFar == "" then next
    else soFar + "\n" + next
  }

  /** What one stage adds to stdout and to stderr. */
  function StdoutPart(stage: OpStage, report: Report): string {
    match report
    case Unbuilt(_) => ""
    case Idled => Trim(stage.idle)
    case Executed(_, _, result) => result.stdout
  }

  function StderrPart(report: Report): string {
    match report
    case Unbuilt(message) => message
    case Idled => ""
    case Executed(_, _, result) => result.stderr
  }

  /** What an operation shows on stdout and stderr: each reached stage's part, in plan order. */
  function StdoutOf(plan: seq<OpStage>, reports: seq<Report>): string
    requires |reports| <= |plan|
  {
    if reports == [] then ""
    else
      var k := |reports| - 1;
      AppendOutput(StdoutOf(plan, reports[..k]), StdoutPart(plan[k], reports[k]))
  }

  function StderrOf(reports: seq<Report>): string {
    if reports == [] then ""
    else
      var k := |reports| - 1;
      AppendOutput(StderrOf(reports[..k]), StderrPart(reports[k]))
  }

  /** What a stage showed on stdout, read off its commands: the last one's output when that succeeded, else the first one's. */
  function ShownOut(stage: OpStage, report: Report): string {
    match report
    case Unbuilt(_) => ""
    case Idled => Trim(stage.idle)
    case Executed(_, trace, _) =>
      if trace == [] then ""
      else if trace[|trace| - 1].result.ok then trace[|trace| - 1].result.stdout else trace[0].result.stdout
  }

  function ShownErr(report: Report): string {
    match report
    case Unbuilt(message) => message
    case Idled => ""
    case Executed(_, trace, _) =>
      if trace == [] then ""
      else if trace[|trace| - 1].result.ok then trace[|trace| - 1].result.stderr else trace[0].result.stderr
  }

  /** The parts that say something, in order. */
  function Spoken(parts: seq<string>): (r: seq<string>)
    ensures "" !in r
  {
    if parts == [] then []
    else
      var last := parts[|parts| - 1];
      Spoken(parts[..|parts| - 1]) + if last == "" then [] else [last]
  }

  function OutParts(plan: seq<OpStage>, reports: seq<Report>): seq<string>
    requires |reports| <= |plan|
  {
    seq(|reports|, k requires 0 <= k < |reports| => ShownOut(plan[k], reports[k]))
  }

  function ErrParts(reports: seq<Report>): seq<string> {
    seq(|reports|, k requires 0 <= k < |reports| => ShownErr(reports[k]))
  }

  lemma {:induction false} JoinedNotEmpty(parts: seq<string>, sep: char)
    requires "" !in parts
    ensures Joined(parts, sep) == "" <==> parts == []
  {
    if |parts| == 1 {
      assert parts[0] in parts;
    }
  }

  lemma {:induction false} JoinedOneMore(parts: seq<string>, last: string, sep: char)
    ensures Joined(parts + [last], sep) == if parts == [] then last else Joined(parts, sep) + [sep] + last
  {
    if parts == [] {
      assert parts + [last] == [last];
    } else {
      assert (parts + [last])[1..] == parts[1..] + [last];
      JoinedOneMore(parts[1..], last, sep);
      if |parts| > 1 {
        assert parts[0] + [sep] + (Joined(parts[1..], sep) + [sep] + last) == parts[0] + [sep] + Joined(parts[1..], sep) + [sep] + last;
      }
    }
  }

  lemma AppendJoins(parts: seq<string>, next: string)
    ensures AppendOutput(Joined(Spoken(parts), '\n'), next) == Joined(Spoken(parts + [next]), '\n')
  {
    assert (parts + [next])[..|parts|] == parts;
    JoinedNotEmpty(Spoken(parts), '\n');
    JoinedOneMore(Spoken(parts), next, '\n');
    assert Spoken(parts) + [] == Spoken(parts);
    assert ['\n'] == "\n";
  }

  lemma PartsGrow(plan: seq<OpStage>, reports: seq<Report>, m: nat)
    requires |reports| <= |plan| && m + 1 == |reports|
    ensures OutParts(plan, reports) == OutParts(plan, reports[..m]) + [ShownOut(plan[m], reports[m])]
    ensures ErrParts(reports) == ErrParts(reports[..m]) + [ShownErr(reports[m])]
  {
  }

  lemma {:induction false} StdoutIsJoined(plan: seq<OpStage>, reports: seq<Report>, expired: bool)
    requires Follows(plan, reports, expired)
    ensures StdoutOf(plan, reports) == Joined(Spoken(OutParts(plan, reports)), '\n')
    decreases |reports|
  {
    hide ReportOf, AppendOutput, StdoutPart, ShownOut, Joined, OutParts, Spoken;
    if reports == [] {
      NothingJoined(plan);
    } else {
      var m := |reports| - 1;
      StdoutIsJoined(plan, reports[..m], expired);
      PartIsShown(plan, reports, expired, m);
      PartsGrow(plan, reports, m);
      AppendJoins(OutParts(plan, reports[..m]), ShownOut(plan[m], reports[m]));
    }
  }

  lemma {:induction false} StderrIsJoined(plan: seq<OpStage>, reports: seq<Report>, expired: bool)
    requires Follows(plan, reports, expired)
    ensures StderrOf(reports) == Joined(Spoken(ErrParts(reports)), '\n')
    decreases |reports|
  {
    hide ReportOf, AppendOutput, StderrPart, ShownErr, Joined, ErrParts, Spoken;
    if reports == [] {
      NothingJoined(plan);
    } else {
      var m := |reports| - 1;
      StderrIsJoined(plan, reports[..m], expired);
      PartIsShown(plan, reports, expired, m);
      PartsGrow(plan, reports, m);
      AppendJoins(ErrParts(reports[..m]), ShownErr(reports[m]));
    }
  }

  /** The output of a run holds what its stages showed, in plan order, a line break between them. */
  lemma OutputIsJoined(plan: seq<OpStage>, reports: seq<Report>, expired: bool)
    requires Follows(plan, reports, expired)
    ensures StdoutOf(plan, reports) == Joined(Spoken(OutParts(plan, reports)), '\n')
    ensures StderrOf(reports) == Joined(Spoken(ErrParts(reports)), '\n')
  {
    StdoutIsJoined(plan, reports, expired);
    StderrIsJoined(plan, reports, expired);
  }

  lemma NothingJoined(plan: seq<OpStage>)
    ensures Joined(Spoken(OutParts(plan, [])), '\n') == "" && Joined(Spoken(ErrParts([])), '\n') == ""
  {
  }

  /** A stage's part of the output is what its commands showed. */
  lemma PartIsShown(plan: seq<OpStage>, reports: seq<Report>, expired: bool, k: nat)
    requires Follows(plan, reports, expired) && k < |reports|
    ensures StdoutPart(plan[k], reports[k]) == ShownOut(plan[k], reports[k]) && StderrPart(reports[k]) == ShownErr(reports[k])
  {
    assert ReportOf(k, plan[k], reports[k], expired);
  }

  /** Every command the reached stages ran, stage after stage. */
  function Commands(reports: seq<Report>): seq<Ran> {
    if reports == [] then []
    else
      var last := reports[|reports| - 1];
      Commands(reports[..|reports| - 1]) + if last.Executed? then last.trace else []
  }

  /** What the reports of a run say about its plan. */
  ghost predicate Follows(plan: seq<OpStage>, reports: seq<Report>, expired: bool) {
    && |reports| <= |plan|
    && (forall k :: 0 <= k < |reports| - 1 ==> reports[k].Success())
    && (forall k :: 0 <= k < |reports| ==> ReportOf(k, plan[k], reports[k], expired))
  }

  ghost predicate ReportOf(k: nat, stage: OpStage, report: Report, expired: bool) {
    match report
    case Unbuilt(_) => stage.builtLate
    case Idled => stage.builtLate || stage.attempts == []
    case Executed(attempts, trace, result) =>
      && attempts != []
      && (!stage.builtLate ==> attempts == stage.attempts)
      && StageTrace(k, attempts, trace, result, expired)
  }

  /** The run ended: all stages succeeded, or the last stage reached did not. */
  ghost predicate Ended(plan: seq<OpStage>, reports: seq<Report>) {
    |reports| == |plan| || (reports != [] && !reports[|reports| - 1].Success())
  }

  predicate AllOk(reports: seq<Report>) {
    forall k :: 0 <= k < |reports| ==> reports[k].Success()
  }

  predicate AllSucceeded(plan: seq<OpStage>, reports: seq<Report>) {
    |reports| == |plan| && AllOk(reports)
  }

  /** The exit code an operation reports: 0 when it succeeded, else that of the stage that failed. */
  function ExitCodeOf(reports: seq<Report>): int {
    if reports == [] then 0
    else match reports[|reports| - 1]
         case Unbuilt(_) => -1
         case Idled => 0
         case Executed(_, _, result) => if result.ok then 0 else result.exitCode
  }

  /**
   A stage's commands run only after every earlier stage succeeded: at any point
   of the command log, all commands of earlier stages lie before it, and each of
   those stages was idle or ended in a command that succeeded.
   */
  lemma {:induction false} CommandsAreStaged(plan: seq<OpStage>, reports: seq<Report>, expired: bool, n: nat)
    requires Follows(plan, reports, expired) && n < |Commands(reports)|
    ensures var k := Commands(reports)[n].stage;
            && k < |reports|
            && (forall j :: 0 <= j < k ==> reports[j].Success())
            && Commands(reports[..k]) <= Commands(reports)[..n]
    decreases |reports|
  {
    var m := |reports| - 1;
    var earlier := Commands(reports[..m]);
    if n < |earlier| {
      assert Commands(reports)[n] == earlier[n];
      CommandsAreStaged(plan, reports[..m], expired, n);
      var k := earlier[n].stage;
      assert reports[..m][..k] == reports[..k];
      assert Commands(reports)[..n] == earlier[..n];
    } else {
      assert Commands(reports)[n] == reports[m].trace[n - |earlier|];
      assert ReportOf(m, plan[m], reports[m], expired);
    }
  }

  /** Every command that ran is an attempt of a stage that was executed. */
  lemma {:induction false} CommandsAreAttempts(plan: seq<OpStage>, reports: seq<Report>, expired: bool, n: nat)
    requires Follows(plan, reports, expired) && n < |Commands(reports)|
    ensures var ran := Commands(reports)[n];
            ran.stage < |reports| && reports[ran.stage].Executed? && ran.attempt in reports[ran.stage].attempts
    decreases |reports|
  {
    var m := |reports| - 1;
    var earlier := Commands(reports[..m]);
    if n < |earlier| {
      CommandsAreAttempts(plan, reports[..m], expired, n);
    } else {
      assert Commands(reports)[n] == reports[m].trace[n - |earlier|];
      assert ReportOf(m, plan[m], reports[m], expired);
    }
  }

  /** A stage whose attempts all fail shows the operator its first attempt's output. */
  lemma FailedStageShowsFirstAttempt(plan: seq<OpStage>, reports: seq<Report>, expired: bool)
    requires Follows(plan, reports, expired) && reports != []
    requires var last := reports[|reports| - 1]; last.Executed? && !last.Success()
    ensures var last := reports[|reports| - 1];
            && last.trace != [] && last.trace[0].attempt == last.attempts[0]
            && (forall i :: 0 <= i < |last.trace| ==> !last.trace[i].result.ok)
            && (!expired ==> |last.trace| == |last.attempts|)
            && ExitCodeOf(reports) == last.trace[0].result.exitCode
            && StderrOf(reports) == AppendOutput(StderrOf(reports[..|reports| - 1]), last.trace[0].result.stderr)
            && StdoutOf(plan, reports) == AppendOutput(StdoutOf(plan, reports[..|reports| - 1]), last.trace[0].result.stdout)
  {
    var m := |reports| - 1;
    assert ReportOf(m, plan[m], reports[m], expired);
  }

  /** The stages of a watched task once the given stages have been reported. */
  ghost predicate TaskShows(task: OpTask, plan: seq<OpStage>, reports: seq<Report>)
    reads task
  {
    && |task.stages| == |plan| && |reports| <= |plan|
    && (forall k :: 0 <= k < |plan| ==> task.stages[k].name == plan[k].name)
    && (forall k :: 0 <= k < |reports| ==>
          task.stages[k].status == if reports[k].Success() then Succeeded else Failed)
    && (forall k :: |reports| <= k < |plan| ==> task.stages[k].status == Pending)
    && (forall v :: v in task.views ==> InOrder(v.stages))
  }

  /** The task shows these reports, and everything it showed since `views` is of the same status. */
  ghost predicate Reported(task: OpTask, status: TaskStatus, views: seq<View>, plan: seq<OpStage>, reports: seq<Report>)
    reads task
  {
    && task.Valid() && TaskShows(task, plan, reports)
    && task.status == status && views <= task.views
    && (forall i :: |views| <= i < |task.views| ==> task.views[i].status == status)
  }

  lemma ReportedIsInOrder(stages: seq<Stage>, k: nat, st: StageStatus)
    requires ProgressAt(stages, k, st)
    ensures InOrder(stages)
  {
    if st == Succeeded {
      if k < |stages| {
        assert ProgressAt(stages, k + 1, Pending);
      } else {
        assert ProgressAt(stages, k, Pending);
      }
    }
  }

  /** Opens stage k on the task, which shows k successful reports. */
  method OpenStage(k: nat, plan: seq<OpStage>, ghost reports: seq<Report>, task: OpTask)
    requires task.Valid() && TaskShows(task, plan, reports) && |reports| == k < |plan|
    requires AllOk(reports)
    modifies task`stages, task`views
    ensures task.Valid() && |task.stages| == |plan| && ProgressAt(task.stages, k, Running)
    ensures forall j :: 0 <= j < |plan| ==> task.stages[j].name == plan[j].name
    ensures forall v :: v in task.views ==> InOrder(v.stages)
    ensures task.views == old(task.views) + [View(task.stages, task.status)]
  {
    assert ProgressAt(task.stages, k, Pending);
    MarkMovesTheCurrentStage(task.stages, k, Pending, Running);
    task.StageStarted(plan[k].name);
    ReportedIsInOrder(task.stages, k, Running);
  }

  /** Closes stage k, which is running, with its report. */
  method CloseStage(k: nat, plan: seq<OpStage>, ghost reports: seq<Report>, report: Report, task: OpTask)
    requires task.Valid() && |task.stages| == |plan| && |reports| == k < |plan|
    requires ProgressAt(task.stages, k, Running)
    requires forall j :: 0 <= j < |plan| ==> task.stages[j].name == plan[j].name
    requires AllOk(reports)
    requires forall v :: v in task.views ==> InOrder(v.stages)
    modifies task`stages, task`views
    ensures task.Valid() && TaskShows(task, plan, reports + [report])
    ensures task.views == old(task.views) + [View(task.stages, task.status)]
  {
    var outcome := if report.Success() then Succeeded else Failed;
    MarkMovesTheCurrentStage(task.stages, k, Running, outcome);
    task.StageFinished(plan[k].name, report.Success());
    ReportedIsInOrder(task.stages, k, outcome);
  }

  lemma FollowsLater(plan: seq<OpStage>, reports: seq<Report>, expired: bool, later: bool)
    requires Follows(plan, reports, expired) && (expired ==> later)
    ensures Follows(plan, reports, later)
  {
    forall k | 0 <= k < |reports|
      ensures ReportOf(k, plan[k], reports[k], later)
    {
      assert ReportOf(k, plan[k], reports[k], expired);
    }
  }

  lemma FollowsExtends(plan: seq<OpStage>, reports: seq<Report>, report: Report, expired: bool)
    requires Follows(plan, reports, expired) && |reports| < |plan|
    requires AllOk(reports)
    requires ReportOf(|reports|, plan[|reports|], report, expired)
    ensures Follows(plan, reports + [report], expired)
    ensures (reports + [report])[..|reports|] == reports
  {
    var all := reports + [report];
    forall k | 0 <= k < |all|
      ensures ReportOf(k, plan[k], all[k], expired)
    {
      if k < |reports| {
        assert ReportOf(k, plan[k], reports[k], expired);
      }
    }
  }

  /** Does the work of one stage: works out its attempts when they are built late, and tries them. */
  method ReachStage(k: nat, stage: OpStage, host: Host, task: OpTask?) returns (report: Report)
    requires task != null ==> task.Valid()
    modifies host, task
    ensures ReportOf(k, stage, report, host.expired)
    ensures host.log == old(host.log) + if report.Executed? then report.trace else []
    ensures old(host.expired) ==> host.expired
    ensures task != null ==> Streamed(task)
  {
    var attempts := stage.attempts;
    if stage.builtLate {
      var built := host.Build();
      match built {
        case Err(message) => return Unbuilt(message);
        case Ok(value) => attempts := value;
      }
    }
    if attempts == [] {
      var note := Trim(stage.idle);
      if note != "" && task != null {
        var line := *;
        var _ := task.Write(line);
      }
      return Idled;
    }
    var result;
    var trace;
    result, trace := RunStage(k, attempts, host, task);
    report := Executed(attempts, trace, result);
  }

  /** The outcome of a run whose stages reported this way. */
  function OutcomeOf(plan: seq<OpStage>, reports: seq<Report>): Outcome
    requires |reports| <= |plan|
  {
    Outcome(AllSucceeded(plan, reports), ExitCodeOf(reports), StdoutOf(plan, reports), StderrOf(reports))
  }

  /** While the loop runs: all reports but the last succeeded, and the outcome so far is theirs. */
  ghost predicate Accounted(plan: seq<OpStage>, reports: seq<Report>, soFar: Outcome) {
    && |reports| <= |plan|
    && (forall k :: 0 <= k < |reports| - 1 ==> reports[k].Success())
    && (soFar.ok <==> reports == [] || reports[|reports| - 1].Success())
    && soFar.exitCode == ExitCodeOf(reports)
    && soFar.stdout == StdoutOf(plan, reports) && soFar.stderr == StderrOf(reports)
  }

  lemma OutputExtends(plan: seq<OpStage>, reports: seq<Report>, report: Report)
    requires |reports| < |plan|
    ensures StdoutOf(plan, reports + [report]) == AppendOutput(StdoutOf(plan, reports), StdoutPart(plan[|reports|], report))
    ensures StderrOf(reports + [report]) == AppendOutput(StderrOf(reports), StderrPart(report))
  {
    var all := reports + [report];
    assert all[..|all| - 1] == reports && all[|all| - 1] == report;
  }

  lemma LogExtends(base: seq<Ran>, reports: seq<Report>, report: Report, before: seq<Ran>, after: seq<Ran>)
    requires before == base + Commands(reports)
    requires after == before + if report.Executed? then report.trace else []
    ensures after == base + Commands(reports + [report])
  {
    var all := reports + [report];
    assert all[..|all| - 1] == reports && all[|all| - 1] == report;
  }

  lemma AccountedSoFar(plan: seq<OpStage>, reports: seq<Report>, soFar: Outcome)
    requires Accounted(plan, reports, soFar) && soFar.ok
    ensures AllOk(reports)
  {
  }

  lemma AccountedExtends(plan: seq<OpStage>, reports: seq<Report>, report: Report, soFar: Outcome, next: Outcome)
    requires Accounted(plan, reports, soFar) && soFar.ok && |reports| < |plan|
    requires next == Outcome(
               report.Success(),
               if report.Success() then soFar.exitCode else if report.Executed? then report.result.exitCode else -1,
               AppendOutput(soFar.stdout, StdoutPart(plan[|reports|], report)),
               AppendOutput(soFar.stderr, StderrPart(report)))
    ensures Accounted(plan, reports + [report], next)
  {
    hide StdoutOf, StderrOf, AppendOutput, StdoutPart, StderrPart;
    OutputExtends(plan, reports, report);
    var all := reports + [report];
    assert all[|all| - 1] == report;
    assert forall k :: 0 <= k < |reports| ==> all[k] == reports[k];
  }

  lemma AccountedDone(plan: seq<OpStage>, reports: seq<Report>, soFar: Outcome)
    requires Accounted(plan, reports, soFar) && (soFar.ok ==> |reports| == |plan|)
    ensures Ended(plan, reports) && soFar == OutcomeOf(plan, reports)
  {
  }

  /** Runs the stages in order until one fails, keeping the watched task (if any) up to date. */
  method RunStages(plan: seq<OpStage>, host: Host, task: OpTask?)
    returns (response: Outcome, status: int, ghost reports: seq<Report>)
    requires task != null ==> task.Valid() && TaskShows(task, plan, [])
    modifies host, task
    ensures Follows(plan, reports, host.expired) && Ended(plan, reports)
    ensures host.log == old(host.log) + Commands(reports)
    ensures response == OutcomeOf(plan, reports)
    ensures status == if response.ok then 200 else if host.expired then 504 else 502
    ensures task != null ==> Reported(task, old(task.status), old(task.views), plan, reports)
  {
    hide StdoutPart, StderrPart, AppendOutput, ReportOf, TaskShows;
    var stdout, stderr, exitCode, failed := "", "", 0, false;
    reports := [];
    var k := 0;
    while k < |plan| && !failed
      invariant |reports| == k && Follows(plan, reports, host.expired)
      invariant Accounted(plan, reports, Outcome(!failed, exitCode, stdout, stderr))
      invariant host.log == old(host.log) + Commands(reports)
      invariant task != null ==> Reported(task, old(task.status), old(task.views), plan, reports)
      decreases |plan| - k
    {
      ghost var soFar := Outcome(!failed, exitCode, stdout, stderr);
      AccountedSoFar(plan, reports, soFar);
      ghost var before := host.log;
      var report := TakeStage(k, plan, host, task, reports);
      FollowsExtends(plan, reports, report, host.expired);
      LogExtends(old(host.log), reports, report, before, host.log);
      stdout := AppendOutput(stdout, StdoutPart(plan[k], report));
      stderr := AppendOutput(stderr, StderrPart(report));
      if !report.Success() {
        failed := true;
        exitCode := if report.Executed? then report.result.exitCode else -1;
      }
      AccountedExtends(plan, reports, report, soFar, Outcome(!failed, exitCode, stdout, stderr));
      reports := reports + [report];
      k := k + 1;
    }
    if !failed {
      exitCode := 0;
    }
    response := Outcome(!failed, exitCode, stdout, stderr);
    AccountedDone(plan, reports, response);
    status := 200;
    if failed {
      ghost var before := host.expired;
      var late := host.DeadlineExceeded();
      FollowsLater(plan, reports, before, host.expired);
      status := if late then 504 else 502;
    }
  }

  /** One turn of that loop: the task is told the stage starts, the stage runs, the task is told how it ended. */
  method TakeStage(k: nat, plan: seq<OpStage>, host: Host, task: OpTask?, ghost reports: seq<Report>)
    returns (report: Report)
    requires |reports| == k < |plan| && Follows(plan, reports, host.expired)
    requires AllOk(reports)
    requires task != null ==> task.Valid() && TaskShows(task, plan, reports)
    modifies host, task
    ensures ReportOf(k, plan[k], report, host.expired) && Follows(plan, reports, host.expired)
    ensures host.log == old(host.log) + if report.Executed? then report.trace else []
    ensures task != null ==> Reported(task, old(task.status), old(task.views), plan, reports + [report])
  {
    ghost var before := host.expired;
    if task != null {
      OpenStage(k, plan, reports, task);
    }
    report := ReachStage(k, plan[k], host, task);
    FollowsLater(plan, reports, before, host.expired);
    if task != null {
      CloseStage(k, plan, reports, report, task);
    }
  }

  /** The concurrency slots that runs hold from start to end. */
  class Slots {
    const capacity: nat
    var held: nat

    ghost predicate Valid()
      reads this
    {
      held <= capacity
    }

    constructor (capacity: nat)
      ensures Valid() && held == 0 && this.capacity == capacity
    {
      this.capacity, held := capacity, 0;
    }

    /** Takes a slot without waiting. */
    method Acquire() returns (ok: bool)
      requires Valid()
      modifies this
      ensures Valid() && ok == (old(held) < capacity)
      ensures held == old(held) + if ok then 1 else 0
    {
      if held < capacity {
        held := held + 1;
        return true;
      }
      return false;
    }

    method Release()
      requires Valid() && held > 0
      modifies this
      ensures Valid() && held == old(held) - 1
    {
      held := held - 1;
    }
  }

  /** The stage had nothing to do, or its last command succeeded. */
  predicate Through(report: Report) {
    report.Idled? || (report.Executed? && report.trace != [] && report.trace[|report.trace| - 1].result.ok)
  }

  lemma ThroughIsSuccess(plan: seq<OpStage>, reports: seq<Report>, expired: bool)
    requires Follows(plan, reports, expired)
    ensures forall k :: 0 <= k < |reports| ==> (Through(reports[k]) <==> reports[k].Success())
  {
    forall k | 0 <= k < |reports|
      ensures Through(reports[k]) <==> reports[k].Success()
    {
      assert ReportOf(k, plan[k], reports[k], expired);
    }
  }

  /**
   A run as a task, from taking its slot to giving it back. Refused when no slot
   is free, and then nothing ran. Otherwise the task ends finished: it left
   `running` once, it succeeded exactly when every stage succeeded or had nothing
   to do and the run was not stopped, and none of its stages is left running.
   */
  method DispatchTask(id: string, plan: seq<OpStage>, timeout: string, slots: Slots, host: Host)
    returns (task: OpTask?, ghost reports: seq<Report>, ctx: ContextError)
    requires slots.Valid()
    modifies slots, host
    ensures slots.Valid() && slots.held == old(slots.held)
    ensures task == null <==> old(slots.held) == slots.capacity
    ensures task == null ==> host.log == old(host.log)
    ensures task != null ==>
              && task.id == id && host.log == old(host.log) + Commands(reports)
              && Follows(plan, reports, host.expired) && Ended(plan, reports)
              && FinishedWith(task, plan, reports, ctx)
    // Told of the commands that ran.
    ensures task != null ==> (task.status == TaskCanceled <==> ctx == Canceled)
    ensures task != null ==>
              (task.status == TaskSucceeded <==>
                 ctx == NoError && |reports| == |plan| && forall k :: 0 <= k < |reports| ==> Through(reports[k]))
    ensures task != null ==>
              && task.stdout == Joined(Spoken(OutParts(plan, reports)), '\n')
              && task.stderr == Joined(Spoken(ErrParts(reports)), '\n')
  {
    reports, ctx := [], NoError;
    var ok := slots.Acquire();
    if !ok {
      return null, reports, ctx;
    }
    task, reports, ctx := RunAsTask(id, plan, timeout, host);
    ThroughIsSuccess(plan, reports, host.expired);
    OutputIsJoined(plan, reports, host.expired);
    slots.Release();
  }

  /** The run itself: a task is made for the plan, the stages run, and the task is finished with their outcome. */
  method RunAsTask(id: string, plan: seq<OpStage>, timeout: string, host: Host)
    returns (task: OpTask, ghost reports: seq<Report>, ctx: ContextError)
    modifies host
    ensures fresh(task) && task.id == id
    ensures host.log == old(host.log) + Commands(reports)
    ensures Follows(plan, reports, host.expired) && Ended(plan, reports)
    ensures FinishedWith(task, plan, reports, ctx)
  {
    task := PlanTask(id, plan);
    var response, code;
    response, code, reports := RunStages(plan, host, task);
    ctx := *;
    assert task.views[0].status == TaskRunning;
    FinishTask(plan, reports, task, response, ctx, timeout);
  }

  method PlanTask(id: string, plan: seq<OpStage>) returns (task: OpTask)
    ensures fresh(task) && task.id == id && task.Valid() && TaskShows(task, plan, [])
    ensures task.status == TaskRunning && task.views == [View(task.stages, TaskRunning)]
  {
    task := new OpTask(id, seq(|plan|, i requires 0 <= i < |plan| => plan[i].name));
    assert ProgressAt(task.stages, 0, Pending);
  }

  method FinishTask(plan: seq<OpStage>, ghost reports: seq<Report>, task: OpTask, response: Outcome, ctx: ContextError, timeout: string)
    requires task.Valid() && TaskShows(task, plan, reports)
    requires response == OutcomeOf(plan, reports)
    requires task.status == TaskRunning && forall v :: v in task.views ==> v.status == TaskRunning
    modifies task
    ensures FinishedWith(task, plan, reports, ctx) && task.stages == old(task.stages)
  {
    hide InOrder, StdoutOf, StderrOf, ExitCodeOf;
    ghost var before := task.views;
    task.Finish(response, ctx, timeout);
    assert before[|before| - 1].stages == task.stages;
    assert forall v :: v in task.views ==> v in before || v.stages == task.stages;
  }

  /** What a finished task says of the run behind it. */
  ghost predicate FinishedWith(task: OpTask, plan: seq<OpStage>, reports: seq<Report>, ctx: ContextError)
    reads task
  {
    && task.Valid() && task.done
    && TaskShows(task, plan, reports)
    && task.ok == AllSucceeded(plan, reports)
    && task.exitCode == ExitCodeOf(reports)
    && task.stdout == StdoutOf(plan, reports) && task.stderr == StderrOf(reports)
    && task.status == FinalStatus(OutcomeOf(plan, reports), ctx)
    && RunningOnce(task.views)
    && (forall k :: 0 <= k < |task.stages| ==> task.stages[k].status != Running)
  }

  /** The history shows running, then a finished status as its last entry: the task left running exactly once. */
  ghost predicate RunningOnce(views: seq<View>) {
    && views != []
    && (forall i :: 0 <= i < |views| - 1 ==> views[i].status == TaskRunning)
    && views[|views| - 1].status != TaskRunning
  }
}
