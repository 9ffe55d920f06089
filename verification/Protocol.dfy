/**
 Othela and all its agents as one step system. Every agent registers, polls, executes and reports, may crash at
 any moment and start again with other labels; requests and replies may be lost; sync requests are answered in
 their three separately locked sections; the fallback job may be changed at any time.

 Assumptions: one live process per node ID; a request is handled at most once, and before its client moves on or
 never; no other client registers or reports under a node's ID; no database errors.
 */
module Protocol {
  import opened Basics
  import opened Types
  import opened Dispatch
  import opened Agent

  datatype Server = Server(nodes: map<string, Labels>, currentJob: Job, reports: seq<Report>)

  datatype Phase =
    | Down
    | Registering(handled: bool)           // in the retry loop of RegisterNode
    | Idle                                 // between two ticks
    | Polling(progress: SyncProgress)      // the request is inside handleSync, or its reply is on the way
    | Fetched(job: Job)                    // in ProcessJob, before the execution has ended
    | Reporting(report: Report, handled: bool)

  /** `runs` records the completed executions, one sequence per process start; the rest is what the process holds. */
  datatype AgentState = AgentState(phase: Phase, labels: Labels, lastJobID: string, runs: seq<seq<Execution>>)

  const FRESH := AgentState(Down, map[], "", [])

  /** `jobChanges` counts the calls of SetCurrentJob that brought another job ID. */
  datatype World = World(server: Server, agents: map<string, AgentState>, jobChanges: nat)

  function AgentOf(w: World, n: string): AgentState {
    if n in w.agents then w.agents[n] else FRESH
  }

  datatype Move =
    | Start(labels: Labels)
    | Crash
    | HandleRegister
    | RetryRegister
    | AckRegister
    | BeginPoll
    | HandleSync
    | Deliver
    | LosePoll
    | Process(status: Status, logs: string)
    | HandleReport
    | EndReport

  datatype Event =
    | AgentEvent(nodeID: string, move: Move)
    | SetCurrentJob(job: Job)

  /** One execution is added to the current run, as ProcessJob does. */
  function Executed(n: string, a: AgentState, e: Execution): AgentState
    requires a.runs != []
  {
    var current := |a.runs| - 1;
    a.(phase := Reporting(ReportFor(n, e), false),
       lastJobID := Remembered(a.lastJobID, e),
       runs := a.runs[..current] + [a.runs[current] + [e]])
  }

  /** A move that is not possible in the agent's phase changes nothing. */
  function MoveAgent(setup: Setup, s: Server, n: string, a: AgentState, m: Move): (Server, AgentState) {
    match m
    case Start(labels) =>
      if a.phase.Down? then (s, AgentState(Registering(false), labels, "", a.runs + [[]])) else (s, a)
    case Crash => (s, a.(phase := Down))
    case HandleRegister =>
      if a.phase == Registering(false) then (s.(nodes := s.nodes[n := a.labels]), a.(phase := Registering(true))) else (s, a)
    case RetryRegister => (s, if a.phase.Registering? then a.(phase := Registering(false)) else a)
    case AckRegister => (s, if a.phase == Registering(true) then a.(phase := Idle) else a)
    case BeginPoll => (s, if a.phase.Idle? then a.(phase := Polling(Arrived)) else a)
    case HandleSync =>
      (s, if a.phase.Polling? then a.(phase := Polling(SyncStep(setup, s.nodes, s.currentJob, n, a.phase.progress))) else a)
    case Deliver =>
      if a.phase.Polling? && a.phase.progress.Answered? then
        match PollResultOf(a.phase.progress.response)
        case GotJob(job) => (s, a.(phase := Fetched(job)))
        case _ => (s, a.(phase := Idle))
      else (s, a)
    case LosePoll => (s, if a.phase.Polling? then a.(phase := Idle) else a)
    case Process(status, logs) =>
      if a.phase.Fetched? && a.runs != [] then
        if a.phase.job.jobID == a.lastJobID then (s, a.(phase := Idle))
        else (s, Executed(n, a, Execution(a.phase.job, status, logs)))
      else (s, a)
    case HandleReport =>
      if a.phase.Reporting? && !a.phase.handled then
        (s.(reports := s.reports + [a.phase.report]), a.(phase := Reporting(a.phase.report, true)))
      else (s, a)
    case EndReport => (s, if a.phase.Reporting? then a.(phase := Idle) else a)
  }

  function Next(setup: Setup, w: World, e: Event): World {
    match e
    case AgentEvent(n, m) =>
      var (s, a) := MoveAgent(setup, w.server, n, AgentOf(w, n), m);
      World(s, w.agents[n := a], w.jobChanges)
    case SetCurrentJob(job) =>
      World(w.server.(currentJob := job), w.agents,
            w.jobChanges + (if job.jobID == w.server.currentJob.jobID then 0 else 1))
  }

  /** The world after the first `i` events. */
  function At(setup: Setup, w0: World, events: seq<Event>, i: nat): World
    requires i <= |events|
  {
    if i == 0 then w0 else Next(setup, At(setup, w0, events, i - 1), events[i - 1])
  }

  /** An event touches one agent at most. */
  lemma NextAgent(setup: Setup, w: World, e: Event, n: string)
    ensures e.AgentEvent? && e.nodeID == n ==>
      (Next(setup, w, e).server, AgentOf(Next(setup, w, e), n)) == MoveAgent(setup, w.server, n, AgentOf(w, n), e.move)
    ensures !(e.AgentEvent? && e.nodeID == n) ==> AgentOf(Next(setup, w, e), n) == AgentOf(w, n)
    ensures e.AgentEvent? ==> Next(setup, w, e).server.currentJob == w.server.currentJob
  {
  }

  /** `m` completes an execution. */
  predicate Executes(a: AgentState, m: Move) {
    m.Process? && a.phase.Fetched? && a.runs != [] && a.phase.job.jobID != a.lastJobID
  }

  /** Only a start and a completed execution touch the runs, the labels and lastJobID. */
  lemma MoveKeepsRuns(setup: Setup, s: Server, n: string, a: AgentState, m: Move)
    ensures
      var a' := MoveAgent(setup, s, n, a, m).1;
      && (!Executes(a, m) && a'.runs != a.runs ==> m.Start? && a.phase.Down? && a' == AgentState(Registering(false), m.labels, "", a.runs + [[]]))
      && (!Executes(a, m) && a'.runs == a.runs ==> a'.lastJobID == a.lastJobID && a'.labels == a.labels && (a.phase.Down? ==> a'.phase.Down?))
      && (Executes(a, m) ==> a' == Executed(n, a, Execution(a.phase.job, m.status, m.logs)))
  {
    if a.phase.Down? && m.Start? {
      assert (a.runs + [[]]) != a.runs;
    }
  }

  /**
   The step that ProcessJob is: the remembered job is passed over; any other is executed, whatever comes of it, and
   its report is then pending.
   */
  lemma ProcessStep(setup: Setup, w: World, n: string, job: Job, status: Status, logs: string)
    requires AgentOf(w, n).phase == Fetched(job) && AgentOf(w, n).runs != []
    ensures
      var a, b := AgentOf(w, n), AgentOf(Next(setup, w, AgentEvent(n, Process(status, logs))), n);
      && b.labels == a.labels
      && (job.jobID == a.lastJobID ==> b.phase == Idle && b.runs == a.runs && b.lastJobID == a.lastJobID)
      && (job.jobID != a.lastJobID ==>
            && b.phase == Reporting(Report(n, job.jobID, status, logs), false)
            && Flat(b.runs) == Flat(a.runs) + [Execution(job, status, logs)] && |b.runs| == |a.runs|
            && b.lastJobID == if status == Success then job.jobID else a.lastJobID)
  {
    NextAgent(setup, w, AgentEvent(n, Process(status, logs)), n);
    FlatExecuted(n, AgentOf(w, n), Execution(job, status, logs));
  }

  /** No agent has started yet; the stores and the fallback job may hold anything. */
  predicate Initial(w: World) {
    w.agents == map[] && w.jobChanges == 0
  }

  // ---------------------------------------------------------------- registration

  predicate PastRegistration(a: AgentState) {
    !a.phase.Down? && a.phase != Registering(false)
  }

  /** A process past its registration is known to Othela under exactly the labels it was started with. */
  ghost predicate KnownByLabels(nodes: map<string, Labels>, n: string, a: AgentState) {
    && (!a.phase.Down? ==> a.runs != [])
    && (PastRegistration(a) ==> n in nodes && nodes[n] == a.labels)
    && (a.phase.Polling? && a.phase.progress.Labelled? ==> a.phase.progress.labels == a.labels)
  }

  /** A move registers the agent's own labels under its own ID, or leaves the nodes alone. */
  lemma MoveNodes(setup: Setup, s: Server, n: string, a: AgentState, m: Move)
    ensures
      var nodes := MoveAgent(setup, s, n, a, m).0.nodes;
      nodes == s.nodes || (!a.phase.Down? && nodes == s.nodes[n := a.labels])
  {
  }

  lemma MoveKnown(setup: Setup, s: Server, n: string, a: AgentState, m: Move)
    requires KnownByLabels(s.nodes, n, a)
    ensures
      var (s', a') := MoveAgent(setup, s, n, a, m);
      KnownByLabels(s'.nodes, n, a')
  {
  }

  lemma EventKnown(setup: Setup, w: World, e: Event, n: string)
    requires KnownByLabels(w.server.nodes, n, AgentOf(w, n))
    ensures KnownByLabels(Next(setup, w, e).server.nodes, n, AgentOf(Next(setup, w, e), n))
  {
    NextAgent(setup, w, e, n);
    if e.AgentEvent? {
      MoveNodes(setup, w.server, e.nodeID, AgentOf(w, e.nodeID), e.move);
      if e.nodeID == n {
        MoveKnown(setup, w.server, n, AgentOf(w, n), e.move);
      }
    }
  }

  lemma {:induction false} RegisteredUnderOwnLabels(setup: Setup, w0: World, events: seq<Event>, i: nat, n: string)
    requires Initial(w0) && i <= |events|
    ensures KnownByLabels(At(setup, w0, events, i).server.nodes, n, AgentOf(At(setup, w0, events, i), n))
  {
    if i > 0 {
      RegisteredUnderOwnLabels(setup, w0, events, i - 1, n);
      EventKnown(setup, At(setup, w0, events, i - 1), events[i - 1], n);
    }
  }

  lemma EventKeepsNodes(setup: Setup, w: World, e: Event)
    ensures w.server.nodes.Keys <= Next(setup, w, e).server.nodes.Keys
  {
    if e.AgentEvent? {
      MoveNodes(setup, w.server, e.nodeID, AgentOf(w, e.nodeID), e.move);
    }
  }

  lemma {:induction false} NodesOnlyGrow(setup: Setup, w0: World, events: seq<Event>, i: nat, j: nat)
    requires i <= j <= |events|
    ensures At(setup, w0, events, i).server.nodes.Keys <= At(setup, w0, events, j).server.nodes.Keys
  {
    if i < j {
      NodesOnlyGrow(setup, w0, events, i, j - 1);
      EventKeepsNodes(setup, At(setup, w0, events, j - 1), events[j - 1]);
    }
  }

  /** All starts of node `n` use the labels `labels`. */
  ghost predicate AlwaysStartedWith(events: seq<Event>, n: string, labels: Labels) {
    forall i :: 0 <= i < |events| && events[i].AgentEvent? && events[i].nodeID == n && events[i].move.Start? ==>
      events[i].move.labels == labels
  }

  /** Node `n` is stored, and its process runs, under no labels but these. */
  ghost predicate OnlyLabels(w: World, n: string, labels: Labels) {
    && (n in w.server.nodes ==> w.server.nodes[n] == labels)
    && (!AgentOf(w, n).phase.Down? ==> AgentOf(w, n).labels == labels)
  }

  lemma EventOnlyLabels(setup: Setup, w: World, e: Event, n: string, labels: Labels)
    requires OnlyLabels(w, n, labels)
    requires e.AgentEvent? && e.nodeID == n && e.move.Start? ==> e.move.labels == labels
    ensures OnlyLabels(Next(setup, w, e), n, labels)
  {
    NextAgent(setup, w, e, n);
    if e.AgentEvent? {
      MoveNodes(setup, w.server, e.nodeID, AgentOf(w, e.nodeID), e.move);
      if e.nodeID == n {
        MoveKeepsRuns(setup, w.server, n, AgentOf(w, n), e.move);
      }
    }
  }

  /** Retries, lost replies and crashes never leave another label set under the node's ID than the configured one. */
  lemma {:induction false} RegistrationIsIdempotent(setup: Setup, w0: World, events: seq<Event>, i: nat, n: string, labels: Labels)
    requires Initial(w0) && i <= |events|
    requires n in w0.server.nodes ==> w0.server.nodes[n] == labels
    requires AlwaysStartedWith(events, n, labels)
    ensures OnlyLabels(At(setup, w0, events, i), n, labels)
  {
    if i > 0 {
      RegistrationIsIdempotent(setup, w0, events, i - 1, n, labels);
      EventOnlyLabels(setup, At(setup, w0, events, i - 1), events[i - 1], n, labels);
    }
  }

  // ---------------------------------------------------------------- histories

  /** The runs obey the lastJobID discipline, and lastJobID is the last success of the current run. */
  ghost predicate RemembersLastSuccess(a: AgentState) {
    && (!a.phase.Down? ==> a.runs != [] && a.lastJobID == LastSuccess(a.runs[|a.runs| - 1]))
    && forall r :: 0 <= r < |a.runs| ==> Disciplined(a.runs[r])
  }

  lemma DisciplinedExtend(h: seq<Execution>, e: Execution)
    requires Disciplined(h) && e.job.jobID != LastSuccess(h)
    ensures Disciplined(h + [e])
    ensures LastSuccess(h + [e]) == if e.status.Success? then e.job.jobID else LastSuccess(h)
  {
    assert (h + [e])[..|h|] == h;
    assert forall j :: 0 <= j < |h| ==> (h + [e])[..j] == h[..j];
  }

  lemma MoveRemembers(setup: Setup, s: Server, n: string, a: AgentState, m: Move)
    requires RemembersLastSuccess(a)
    ensures RemembersLastSuccess(MoveAgent(setup, s, n, a, m).1)
  {
    MoveKeepsRuns(setup, s, n, a, m);
    if Executes(a, m) {
      DisciplinedExtend(a.runs[|a.runs| - 1], Execution(a.phase.job, m.status, m.logs));
    }
  }

  lemma {:induction false} AlwaysRemembers(setup: Setup, w0: World, events: seq<Event>, i: nat, n: string)
    requires Initial(w0) && i <= |events|
    ensures RemembersLastSuccess(AgentOf(At(setup, w0, events, i), n))
  {
    if i > 0 {
      AlwaysRemembers(setup, w0, events, i - 1, n);
      var w := At(setup, w0, events, i - 1);
      NextAgent(setup, w, events[i - 1], n);
      if events[i - 1].AgentEvent? {
        MoveRemembers(setup, w.server, n, AgentOf(w, n), events[i - 1].move);
      }
    }
  }

  /** In every run of every agent a succeeded job is executed again only after another job succeeded in between. */
  lemma RunsAreSeparated(setup: Setup, w0: World, events: seq<Event>, n: string)
    requires Initial(w0)
    ensures forall r :: 0 <= r < |AgentOf(At(setup, w0, events, |events|), n).runs| ==>
      Separated(AgentOf(At(setup, w0, events, |events|), n).runs[r])
  {
    AlwaysRemembers(setup, w0, events, |events|, n);
    var runs := AgentOf(At(setup, w0, events, |events|), n).runs;
    forall r | 0 <= r < |runs|
      ensures Separated(runs[r])
    {
      DisciplinedIffSeparated(runs[r]);
    }
  }

  ghost predicate AllOf(answer: SyncResponse, run: seq<Execution>) {
    forall x :: 0 <= x < |run| ==> answer == JobResponse(run[x].job)
  }

  /** Everything the current process has fetched or executed is the job of `answer`; so it was in every run. */
  ghost predicate OneJobPerRun(answer: SyncResponse, a: AgentState) {
    && (forall r :: 0 <= r < |a.runs| ==> Uniform(a.runs[r]))
    && (!a.phase.Down? && a.runs != [] ==> AllOf(answer, a.runs[|a.runs| - 1]))
    && (a.phase.Fetched? ==> answer == JobResponse(a.phase.job))
    && (a.phase.Polling? && a.phase.progress.Answered? && a.phase.progress.response.JobResponse? ==>
          answer == a.phase.progress.response)
  }

  /** With a manifest around the answer for given labels is the same whatever the fallback job. */
  lemma MoveKeepsOneJob(setup: Setup, s: Server, n: string, a: AgentState, m: Move, answer: SyncResponse, answer': SyncResponse)
    requires OneJobPerRun(answer, a)
    requires !a.phase.Down? || !m.Start? ==> answer' == answer
    requires a.phase.Polling? && a.phase.progress.Labelled? ==> answer == Decide(setup, s.currentJob, a.phase.progress.labels)
    ensures OneJobPerRun(answer', MoveAgent(setup, s, n, a, m).1)
  {
    MoveKeepsRuns(setup, s, n, a, m);
  }

  /** The answer a process gets when the fallback job plays no part. */
  ghost predicate OneJobHeld(setup: Setup, a: AgentState) {
    OneJobPerRun(Decide(setup, NO_JOB, a.labels), a)
  }

  lemma EventOneJob(setup: Setup, w: World, e: Event, n: string)
    requires HasManifests(setup)
    requires KnownByLabels(w.server.nodes, n, AgentOf(w, n)) && OneJobHeld(setup, AgentOf(w, n))
    ensures OneJobHeld(setup, AgentOf(Next(setup, w, e), n))
  {
    NextAgent(setup, w, e, n);
    if e.AgentEvent? && e.nodeID == n {
      var a, m := AgentOf(w, n), e.move;
      var b := MoveAgent(setup, w.server, n, a, m).1;
      MoveKeepsRuns(setup, w.server, n, a, m);
      DecideModes(setup, NO_JOB, a.labels, w.server.currentJob, a.labels);
      MoveKeepsOneJob(setup, w.server, n, a, m, Decide(setup, NO_JOB, a.labels), Decide(setup, NO_JOB, b.labels));
    }
  }

  lemma NoJobAtFirst(setup: Setup, w: World, n: string)
    requires Initial(w)
    ensures OneJobHeld(setup, AgentOf(w, n))
  {
    assert AgentOf(w, n) == FRESH;
  }

  lemma {:induction false} AlwaysOneJobPerRun(setup: Setup, w0: World, events: seq<Event>, i: nat, n: string)
    requires Initial(w0) && i <= |events| && HasManifests(setup)
    ensures OneJobHeld(setup, AgentOf(At(setup, w0, events, i), n))
  {
    if i == 0 {
      NoJobAtFirst(setup, w0, n);
    } else {
      AlwaysOneJobPerRun(setup, w0, events, i - 1, n);
      RegisteredUnderOwnLabels(setup, w0, events, i - 1, n);
      EventOneJob(setup, At(setup, w0, events, i - 1), events[i - 1], n);
    }
  }

  /** With a manifest around, every run is some failures of one job and then at most one success of it. */
  lemma RunsFailUntilOneSuccess(setup: Setup, w0: World, events: seq<Event>, n: string)
    requires Initial(w0) && HasManifests(setup)
    ensures
      var runs := AgentOf(At(setup, w0, events, |events|), n).runs;
      forall r :: 0 <= r < |runs| ==> Uniform(runs[r]) && FailedThenAtMostOneSuccess(runs[r])
  {
    AlwaysRemembers(setup, w0, events, |events|, n);
    AlwaysOneJobPerRun(setup, w0, events, |events|, n);
    var runs := AgentOf(At(setup, w0, events, |events|), n).runs;
    forall r | 0 <= r < |runs|
      ensures Uniform(runs[r]) && FailedThenAtMostOneSuccess(runs[r])
    {
      UniformRunsUntilSuccess(runs[r]);
    }
  }

  // ---------------------------------------------------------------- bounded success

  function TotalSuccesses(runs: seq<seq<Execution>>): nat {
    if runs == [] then 0 else TotalSuccesses(runs[..|runs| - 1]) + Successes(runs[|runs| - 1])
  }

  /** 1 when an agent that remembers `last` would execute the job of `answer`. */
  function Gap(last: string, answer: SyncResponse): nat {
    if answer.JobResponse? && answer.job.jobID != last then 1 else 0
  }

  /**
   How many more successes the agent can have without a restart or a change of the fallback job, when a poll
   decided now would get `answer`: it may still run the job it holds, and then the job of `answer`.
   */
  function Potential(answer: SyncResponse, a: AgentState): nat {
    match a.phase
    case Down => 0
    case Registering(_) => 1
    case Fetched(job) => Gap(a.lastJobID, JobResponse(job)) + Gap(job.jobID, answer)
    case Polling(Answered(JobResponse(job))) => Gap(a.lastJobID, JobResponse(job)) + Gap(job.jobID, answer)
    case _ => Gap(a.lastJobID, answer)
  }

  ghost predicate WithinBudget(answer: SyncResponse, a: AgentState, allowance: nat) {
    TotalSuccesses(a.runs) + Potential(answer, a) <= |a.runs| + allowance
  }

  lemma TotalSuccessesExecuted(runs: seq<seq<Execution>>, e: Execution)
    requires runs != []
    ensures TotalSuccesses(runs[..|runs| - 1] + [runs[|runs| - 1] + [e]])
         == TotalSuccesses(runs) + (if e.status.Success? then 1 else 0)
  {
    var current := runs[|runs| - 1];
    var runs' := runs[..|runs| - 1] + [current + [e]];
    assert runs'[..|runs'| - 1] == runs[..|runs| - 1];
    assert (current + [e])[..|current|] == current;
  }

  lemma TotalSuccessesStarted(runs: seq<seq<Execution>>)
    ensures TotalSuccesses(runs + [[]]) == TotalSuccesses(runs)
  {
    assert (runs + [[]])[..|runs|] == runs;
  }

  /** A move that executes nothing gains no potential, except that a start is worth one. */
  lemma MovePotential(setup: Setup, s: Server, n: string, a: AgentState, m: Move, answer: SyncResponse)
    requires a.phase.Polling? && a.phase.progress.Labelled? ==> answer == Decide(setup, s.currentJob, a.phase.progress.labels)
    requires !Executes(a, m) && !(a.phase.Down? && m.Start?)
    ensures Potential(answer, MoveAgent(setup, s, n, a, m).1) <= Potential(answer, a)
  {
  }

  /** A success uses up potential; a failure leaves what is left. */
  lemma ExecutionPotential(n: string, a: AgentState, e: Execution, answer: SyncResponse)
    requires a.runs != [] && a.phase == Fetched(e.job) && e.job.jobID != a.lastJobID
    ensures Potential(answer, Executed(n, a, e)) + (if e.status.Success? then 1 else 0) <= Potential(answer, a)
  {
  }

  /** A move of the agent itself spends what it earns. */
  lemma MoveWithinBudget(setup: Setup, s: Server, n: string, a: AgentState, m: Move,
                         answer: SyncResponse, answer': SyncResponse, allowance: nat)
    requires WithinBudget(answer, a, allowance)
    requires !a.phase.Down? || !m.Start? ==> answer' == answer
    requires a.phase.Polling? && a.phase.progress.Labelled? ==> answer == Decide(setup, s.currentJob, a.phase.progress.labels)
    ensures WithinBudget(answer', MoveAgent(setup, s, n, a, m).1, allowance)
  {
    MoveKeepsRuns(setup, s, n, a, m);
    if Executes(a, m) {
      var e := Execution(a.phase.job, m.status, m.logs);
      TotalSuccessesExecuted(a.runs, e);
      ExecutionPotential(n, a, e, answer);
    } else if a.phase.Down? && m.Start? {
      TotalSuccessesStarted(a.runs);
    } else {
      MovePotential(setup, s, n, a, m, answer);
    }
  }

  /** A change of the answer to another job ID is worth one more success at most. */
  lemma JobChangeWithinBudget(answer: SyncResponse, answer': SyncResponse, a: AgentState, allowance: nat, extra: nat)
    requires WithinBudget(answer, a, allowance)
    requires extra == 0 ==>
      answer' == answer
      || (answer.JobResponse? && answer'.JobResponse? && answer.job.jobID == answer'.job.jobID)
      || (!answer.JobResponse? && !answer'.JobResponse?)
    ensures WithinBudget(answer', a, allowance + extra)
  {
  }

  function Allowance(setup: Setup, w: World): nat {
    if HasManifests(setup) then 0 else w.jobChanges
  }

  ghost predicate BudgetKept(setup: Setup, w: World, n: string) {
    WithinBudget(Decide(setup, w.server.currentJob, AgentOf(w, n).labels), AgentOf(w, n), Allowance(setup, w))
  }

  lemma OwnEventWithinBudget(setup: Setup, w: World, n: string, m: Move)
    requires KnownByLabels(w.server.nodes, n, AgentOf(w, n)) && BudgetKept(setup, w, n)
    ensures BudgetKept(setup, Next(setup, w, AgentEvent(n, m)), n)
  {
    var a := AgentOf(w, n);
    NextAgent(setup, w, AgentEvent(n, m), n);
    MoveKeepsRuns(setup, w.server, n, a, m);
    var b := MoveAgent(setup, w.server, n, a, m).1;
    MoveWithinBudget(setup, w.server, n, a, m, Decide(setup, w.server.currentJob, a.labels),
                     Decide(setup, w.server.currentJob, b.labels), Allowance(setup, w));
  }

  lemma SetJobWithinBudget(setup: Setup, w: World, n: string, job: Job)
    requires BudgetKept(setup, w, n)
    ensures BudgetKept(setup, Next(setup, w, SetCurrentJob(job)), n)
  {
    var a := AgentOf(w, n);
    var w' := Next(setup, w, SetCurrentJob(job));
    DecideModes(setup, w.server.currentJob, a.labels, job, a.labels);
    DecideModes(setup, job, a.labels, job, a.labels);
    JobChangeWithinBudget(Decide(setup, w.server.currentJob, a.labels), Decide(setup, job, a.labels), a,
                          Allowance(setup, w), Allowance(setup, w') - Allowance(setup, w));
  }

  lemma EventWithinBudget(setup: Setup, w: World, e: Event, n: string)
    requires KnownByLabels(w.server.nodes, n, AgentOf(w, n)) && BudgetKept(setup, w, n)
    ensures BudgetKept(setup, Next(setup, w, e), n)
  {
    match e {
      case AgentEvent(m, move) =>
        if m == n {
          OwnEventWithinBudget(setup, w, n, move);
        } else {
          NextAgent(setup, w, e, n);
        }
      case SetCurrentJob(job) => SetJobWithinBudget(setup, w, n, job);
    }
  }

  lemma FreshWithinBudget(setup: Setup, w: World, n: string)
    requires Initial(w)
    ensures BudgetKept(setup, w, n)
  {
  }

  lemma {:induction false} AlwaysWithinBudget(setup: Setup, w0: World, events: seq<Event>, i: nat, n: string)
    requires Initial(w0) && i <= |events|
    ensures BudgetKept(setup, At(setup, w0, events, i), n)
  {
    if i == 0 {
      FreshWithinBudget(setup, w0, n);
    } else {
      AlwaysWithinBudget(setup, w0, events, i - 1, n);
      RegisteredUnderOwnLabels(setup, w0, events, i - 1, n);
      EventWithinBudget(setup, At(setup, w0, events, i - 1), events[i - 1], n);
    }
  }

  function CountSetJob(events: seq<Event>): nat {
    if events == [] then 0
    else CountSetJob(events[..|events| - 1]) + (if events[|events| - 1].SetCurrentJob? then 1 else 0)
  }

  lemma {:induction false} JobChangesCounted(setup: Setup, w0: World, events: seq<Event>, i: nat)
    requires Initial(w0) && i <= |events|
    ensures At(setup, w0, events, i).jobChanges <= CountSetJob(events[..i])
  {
    if i > 0 {
      JobChangesCounted(setup, w0, events, i - 1);
      assert events[..i][..i - 1] == events[..i - 1];
    }
  }

  /**
   Bounded success. Over any run, with any crashes and losses, a node's successful executions number at most its
   process starts when some playbook has a manifest, and otherwise at most its starts plus the changes of the
   fallback job's ID, which are no more than the calls of SetCurrentJob.
   */
  lemma SuccessesAreBounded(setup: Setup, w0: World, events: seq<Event>, n: string)
    requires Initial(w0)
    ensures
      var w := At(setup, w0, events, |events|);
      var runs := AgentOf(w, n).runs;
      && (HasManifests(setup) ==> TotalSuccesses(runs) <= |runs|)
      && TotalSuccesses(runs) <= |runs| + w.jobChanges
      && w.jobChanges <= CountSetJob(events)
  {
    AlwaysWithinBudget(setup, w0, events, |events|, n);
    JobChangesCounted(setup, w0, events, |events|);
    assert events[..|events|] == events;
  }

  // ---------------------------------------------------------------- reports

  /** All executions of a node, across its process starts, in order. */
  function Flat(runs: seq<seq<Execution>>): seq<Execution> {
    if runs == [] then [] else Flat(runs[..|runs| - 1]) + runs[|runs| - 1]
  }

  lemma FlatSnoc(runs: seq<seq<Execution>>, run: seq<Execution>)
    ensures Flat(runs + [run]) == Flat(runs) + run
  {
    assert (runs + [run])[..|runs|] == runs;
  }

  lemma FlatExecuted(n: string, a: AgentState, e: Execution)
    requires a.runs != []
    ensures Flat(Executed(n, a, e).runs) == Flat(a.runs) + [e]
  {
    var current := a.runs[|a.runs| - 1];
    var past := a.runs[..|a.runs| - 1];
    assert a.runs == past + [current];
    FlatSnoc(past, current);
    FlatSnoc(past, current + [e]);
    assert Flat(past) + (current + [e]) == (Flat(past) + current) + [e];
  }

  lemma FlatStarted(runs: seq<seq<Execution>>)
    ensures Flat(runs + [[]]) == Flat(runs)
  {
    FlatSnoc(runs, []);
    assert Flat(runs) + [] == Flat(runs);
  }

  /** The request of the agent's pending report is handled by this move. */
  predicate Handles(a: AgentState, m: Move) {
    m.HandleReport? && a.phase.Reporting? && !a.phase.handled
  }

  /** An event stores a report exactly when it handles the request of a node that is reporting, and stores that report. */
  lemma ReportsChangeIff(setup: Setup, w: World, e: Event)
    ensures Next(setup, w, e).server.reports == w.server.reports
      + (if e.AgentEvent? && e.move.HandleReport? && AgentOf(w, e.nodeID).phase.Reporting? && !AgentOf(w, e.nodeID).phase.handled
         then [AgentOf(w, e.nodeID).phase.report] else [])
  {
    assert w.server.reports + [] == w.server.reports;
  }

  /** What the report store holds from node `n` beyond its initial content. */
  function StoredSince(w0: World, w: World, n: string): seq<Report>
    requires w0.server.reports <= w.server.reports
  {
    ReportsOf(w.server.reports[|w0.server.reports|..], n)
  }

  lemma StoredGrows(reports: seq<Report>, base: seq<Report>, r: Report, n: string)
    requires base <= reports
    ensures ReportsOf((reports + [r])[|base|..], n)
         == ReportsOf(reports[|base|..], n) + (if r.nodeID == n then [r] else [])
  {
    assert (reports + [r])[|base|..] == reports[|base|..] + [r];
    ReportsOfAppend(reports[|base|..], r, n);
  }

  /** A pending report is that of its node's last execution. */
  ghost predicate PendingReport(n: string, a: AgentState) {
    a.phase.Reporting? ==> Flat(a.runs) != [] && Reports(a.phase.report, n, Flat(a.runs)[|Flat(a.runs)| - 1])
  }

  /** A move that completes no execution leaves the executions, and the pending report, as they are. */
  lemma MoveKeepsFlat(setup: Setup, s: Server, n: string, a: AgentState, m: Move)
    requires !Executes(a, m)
    ensures
      var b := MoveAgent(setup, s, n, a, m).1;
      && Flat(b.runs) == Flat(a.runs)
      && (b.phase.Reporting? ==> a.phase.Reporting? && b.phase.report == a.phase.report
                                 && b.phase.handled == (a.phase.handled || Handles(a, m)))
  {
    MoveKeepsRuns(setup, s, n, a, m);
    if MoveAgent(setup, s, n, a, m).1.runs != a.runs {
      FlatStarted(a.runs);
    }
  }

  lemma MovePending(setup: Setup, s: Server, n: string, a: AgentState, m: Move)
    requires PendingReport(n, a)
    ensures PendingReport(n, MoveAgent(setup, s, n, a, m).1)
  {
    if Executes(a, m) {
      MoveKeepsRuns(setup, s, n, a, m);
      FlatExecuted(n, a, Execution(a.phase.job, m.status, m.logs));
    } else {
      MoveKeepsFlat(setup, s, n, a, m);
    }
  }

  lemma {:induction false} AlwaysPending(setup: Setup, w0: World, events: seq<Event>, i: nat, n: string)
    requires Initial(w0) && i <= |events|
    ensures PendingReport(n, AgentOf(At(setup, w0, events, i), n))
  {
    if i > 0 {
      AlwaysPending(setup, w0, events, i - 1, n);
      var w := At(setup, w0, events, i - 1);
      NextAgent(setup, w, events[i - 1], n);
      if events[i - 1].AgentEvent? {
        MovePending(setup, w.server, n, AgentOf(w, n), events[i - 1].move);
      }
    }
  }

  /** How one event changes what is stored from node `n`. */
  lemma StoredAfter(setup: Setup, w0: World, w: World, e: Event, n: string)
    requires w0.server.reports <= w.server.reports
    requires e.AgentEvent? ==> PendingReport(e.nodeID, AgentOf(w, e.nodeID))
    ensures w0.server.reports <= Next(setup, w, e).server.reports
    ensures StoredSince(w0, Next(setup, w, e), n) == StoredSince(w0, w, n)
      + (if e.AgentEvent? && e.nodeID == n && Handles(AgentOf(w, n), e.move) then [AgentOf(w, n).phase.report] else [])
  {
    ReportsChangeIff(setup, w, e);
    if e.AgentEvent? && Handles(AgentOf(w, e.nodeID), e.move) {
      StoredGrows(w.server.reports, w0.server.reports, AgentOf(w, e.nodeID).phase.report, n);
    } else {
      assert w.server.reports + [] == w.server.reports;
    }
  }

  /** Event `h` handles the request that reports execution number `p` of node `n`, its last one at that moment. */
  ghost predicate HandledAt(setup: Setup, w0: World, events: seq<Event>, n: string, p: nat, h: nat) {
    && h < |events| && events[h] == AgentEvent(n, HandleReport)
    && var a := AgentOf(At(setup, w0, events, h), n);
    && a.phase.Reporting? && !a.phase.handled && |Flat(a.runs)| == p + 1
  }

  /** One of the first `i` events does. */
  ghost predicate Handled(setup: Setup, w0: World, events: seq<Event>, n: string, i: nat, p: nat) {
    exists h: nat :: h < i && HandledAt(setup, w0, events, n, p, h)
  }

  /** The executions whose report request is handled by the first `i` events. */
  ghost function HandledBefore(setup: Setup, w0: World, events: seq<Event>, n: string, i: nat): iset<nat> {
    iset p: nat | Handled(setup, w0, events, n, i, p)
  }

  /** `stored` holds, in order, one report for each execution at the positions `f` of `h`. */
  ghost predicate ReportsAt(stored: seq<Report>, n: string, h: seq<Execution>, f: seq<nat>) {
    && |f| == |stored|
    && (forall i, j :: 0 <= i < j < |f| ==> f[i] < f[j])
    && (forall i :: 0 <= i < |f| ==> f[i] < |h| && Reports(stored[i], n, h[f[i]]))
  }

  /** The stored reports are those of the handled executions; a pending report is counted once it has been handled. */
  ghost predicate Ledger(stored: seq<Report>, n: string, a: AgentState, f: seq<nat>, handled: iset<nat>) {
    && ReportsAt(stored, n, Flat(a.runs), f)
    && (forall p: nat :: p in f <==> p in handled)
    && PendingReport(n, a)
    && (a.phase.Reporting? ==> (a.phase.handled <==> |Flat(a.runs)| - 1 in f))
  }

  lemma LedgerPositions(stored: seq<Report>, n: string, a: AgentState, f: seq<nat>, handled: iset<nat>)
    requires Ledger(stored, n, a, f, handled)
    ensures forall p :: p in f ==> p < |Flat(a.runs)|
  {
  }

  lemma MoveLedger(setup: Setup, s: Server, n: string, a: AgentState, m: Move, stored: seq<Report>, f: seq<nat>, handled: iset<nat>)
    requires Ledger(stored, n, a, f, handled) && !Handles(a, m)
    ensures Ledger(stored, n, MoveAgent(setup, s, n, a, m).1, f, handled)
  {
    MovePending(setup, s, n, a, m);
    LedgerPositions(stored, n, a, f, handled);
    if Executes(a, m) {
      MoveKeepsRuns(setup, s, n, a, m);
      FlatExecuted(n, a, Execution(a.phase.job, m.status, m.logs));
    } else {
      MoveKeepsFlat(setup, s, n, a, m);
    }
  }

  lemma ReportsOneMore(stored: seq<Report>, n: string, h: seq<Execution>, f: seq<nat>, r: Report)
    requires ReportsAt(stored, n, h, f) && h != [] && Reports(r, n, h[|h| - 1])
    requires |h| - 1 !in f
    ensures ReportsAt(stored + [r], n, h, f + [|h| - 1])
  {
    assert forall i :: 0 <= i < |f| ==> f[i] in f;
  }

  lemma HandleLedger(setup: Setup, s: Server, n: string, a: AgentState, m: Move, stored: seq<Report>, f: seq<nat>, handled: iset<nat>)
    requires Ledger(stored, n, a, f, handled) && Handles(a, m)
    ensures
      var last := |Flat(a.runs)| - 1;
      Ledger(stored + [a.phase.report], n, MoveAgent(setup, s, n, a, m).1, f + [last], handled + iset{last})
  {
    LedgerPositions(stored, n, a, f, handled);
    var last := |Flat(a.runs)| - 1;
    var b := MoveAgent(setup, s, n, a, m).1;
    assert b == a.(phase := Reporting(a.phase.report, true));
    ReportsOneMore(stored, n, Flat(a.runs), f, a.phase.report);
    assert (f + [last])[|f|] == last;
    assert forall p: nat :: p in f + [last] <==> p in f || p == last;
  }

  /** What an event adds to the handled executions. */
  lemma HandledGrows(setup: Setup, w0: World, events: seq<Event>, n: string, i: nat)
    requires i < |events|
    ensures
      var a := AgentOf(At(setup, w0, events, i), n);
      HandledBefore(setup, w0, events, n, i + 1) == HandledBefore(setup, w0, events, n, i)
        + (if events[i].AgentEvent? && events[i].nodeID == n && Handles(a, events[i].move) && Flat(a.runs) != []
           then iset{|Flat(a.runs)| - 1} else iset{})
  {
    var a := AgentOf(At(setup, w0, events, i), n);
    forall p: nat
      ensures HandledAt(setup, w0, events, n, p, i) <==>
        events[i].AgentEvent? && events[i].nodeID == n && Handles(a, events[i].move) && |Flat(a.runs)| == p + 1
    {
    }
    forall p: nat
      ensures p in HandledBefore(setup, w0, events, n, i + 1) <==>
        p in HandledBefore(setup, w0, events, n, i) || HandledAt(setup, w0, events, n, p, i)
    {
      if h: nat :| h < i + 1 && HandledAt(setup, w0, events, n, p, h) {
        assert h < i || HandledAt(setup, w0, events, n, p, i);
      }
    }
  }

  ghost predicate LedgerIn(w0: World, w: World, n: string, f: seq<nat>, handled: iset<nat>) {
    w0.server.reports <= w.server.reports && Ledger(StoredSince(w0, w, n), n, AgentOf(w, n), f, handled)
  }

  lemma LedgerHandles(setup: Setup, w0: World, w: World, n: string, e: Event, f: seq<nat>, handled: iset<nat>)
    requires LedgerIn(w0, w, n, f, handled)
    requires e.AgentEvent? && e.nodeID == n && Handles(AgentOf(w, n), e.move)
    ensures
      var last := |Flat(AgentOf(w, n).runs)| - 1;
      LedgerIn(w0, Next(setup, w, e), n, f + [last], handled + iset{last})
  {
    StoredAfter(setup, w0, w, e, n);
    NextAgent(setup, w, e, n);
    HandleLedger(setup, w.server, n, AgentOf(w, n), e.move, StoredSince(w0, w, n), f, handled);
  }

  lemma LedgerKept(setup: Setup, w0: World, w: World, n: string, e: Event, f: seq<nat>, handled: iset<nat>)
    requires LedgerIn(w0, w, n, f, handled)
    requires e.AgentEvent? ==> PendingReport(e.nodeID, AgentOf(w, e.nodeID))
    requires !(e.AgentEvent? && e.nodeID == n && Handles(AgentOf(w, n), e.move))
    ensures LedgerIn(w0, Next(setup, w, e), n, f, handled + iset{})
  {
    StoredAfter(setup, w0, w, e, n);
    NextAgent(setup, w, e, n);
    assert StoredSince(w0, w, n) + [] == StoredSince(w0, w, n) && handled + iset{} == handled;
    if e.AgentEvent? && e.nodeID == n {
      MoveLedger(setup, w.server, n, AgentOf(w, n), e.move, StoredSince(w0, w, n), f, handled);
    }
  }

  lemma EventLedger(setup: Setup, w0: World, w: World, n: string, e: Event, f: seq<nat>, handled: iset<nat>) returns (g: seq<nat>)
    requires LedgerIn(w0, w, n, f, handled)
    requires e.AgentEvent? ==> PendingReport(e.nodeID, AgentOf(w, e.nodeID))
    ensures
      var a := AgentOf(w, n);
      LedgerIn(w0, Next(setup, w, e), n, g,
               handled + (if e.AgentEvent? && e.nodeID == n && Handles(a, e.move) && Flat(a.runs) != []
                          then iset{|Flat(a.runs)| - 1} else iset{}))
  {
    if e.AgentEvent? && e.nodeID == n && Handles(AgentOf(w, n), e.move) {
      g := f + [|Flat(AgentOf(w, n).runs)| - 1];
      LedgerHandles(setup, w0, w, n, e, f, handled);
    } else {
      g := f;
      LedgerKept(setup, w0, w, n, e, f, handled);
    }
  }

  lemma EmptyLedger(setup: Setup, w0: World, events: seq<Event>, n: string)
    requires Initial(w0)
    ensures LedgerIn(w0, w0, n, [], HandledBefore(setup, w0, events, n, 0))
  {
    assert w0.server.reports[|w0.server.reports|..] == [];
  }

  lemma StepLedger(setup: Setup, w0: World, events: seq<Event>, i: nat, n: string, f: seq<nat>) returns (g: seq<nat>)
    requires Initial(w0) && i < |events|
    requires LedgerIn(w0, At(setup, w0, events, i), n, f, HandledBefore(setup, w0, events, n, i))
    ensures LedgerIn(w0, At(setup, w0, events, i + 1), n, g, HandledBefore(setup, w0, events, n, i + 1))
  {
    if events[i].AgentEvent? {
      AlwaysPending(setup, w0, events, i, events[i].nodeID);
    }
    HandledGrows(setup, w0, events, n, i);
    g := EventLedger(setup, w0, At(setup, w0, events, i), n, events[i], f, HandledBefore(setup, w0, events, n, i));
  }

  lemma {:induction false} AlwaysInLedger(setup: Setup, w0: World, events: seq<Event>, i: nat, n: string) returns (f: seq<nat>)
    requires Initial(w0) && i <= |events|
    ensures LedgerIn(w0, At(setup, w0, events, i), n, f, HandledBefore(setup, w0, events, n, i))
  {
    if i == 0 {
      f := [];
      EmptyLedger(setup, w0, events, n);
    } else {
      f := AlwaysInLedger(setup, w0, events, i - 1, n);
      f := StepLedger(setup, w0, events, i - 1, n, f);
    }
  }

  /**
   The law of reports. What is stored from a node since the beginning is, in the order of execution, one report for
   each of its executions whose request was handled, and nothing else: none is lost once handled, duplicated,
   reordered or invented.
   */
  lemma StoredReportsFollowExecutions(setup: Setup, w0: World, events: seq<Event>, n: string) returns (f: seq<nat>)
    requires Initial(w0)
    ensures w0.server.reports <= At(setup, w0, events, |events|).server.reports
    ensures
      var w := At(setup, w0, events, |events|);
      var stored, executions := StoredSince(w0, w, n), Flat(AgentOf(w, n).runs);
      && |f| == |stored|
      && (forall i, j :: 0 <= i < j < |f| ==> f[i] < f[j])
      && (forall i :: 0 <= i < |f| ==>
            && f[i] < |executions|
            && stored[i].nodeID == n && stored[i].jobID == executions[f[i]].job.jobID
            && stored[i].status == executions[f[i]].status && stored[i].taskLogs == executions[f[i]].logs)
    ensures forall p: nat :: p in f <==> Handled(setup, w0, events, n, |events|, p)
  {
    f := AlwaysInLedger(setup, w0, events, |events|, n);
  }

  predicate Increasing(f: seq<nat>, n: nat) {
    && (forall i, j :: 0 <= i < j < |f| ==> f[i] < f[j])
    && (forall i :: 0 <= i < |f| ==> f[i] < n)
  }

  /** There are at most `n` increasing positions below `n`, and `n` of them are all in turn. */
  lemma {:induction false} FullPositions(f: seq<nat>, n: nat)
    requires Increasing(f, n)
    ensures |f| <= n
    ensures |f| == n ==> forall i :: 0 <= i < n ==> f[i] == i
  {
    if f != [] {
      var last := |f| - 1;
      FullPositions(f[..last], f[last]);
    }
  }

  /** Increasing positions that cover everything below `n` are `n` in number at least. */
  lemma {:induction false} CoveringPositions(f: seq<nat>, n: nat)
    requires Increasing(f, n) && forall p: nat :: p < n ==> p in f
    ensures |f| >= n
  {
    if n > 0 {
      assert n - 1 in f;
      var last := |f| - 1;
      assert f[last] == n - 1;
      forall p: nat | p < n - 1
        ensures p in f[..last]
      {
        assert p in f;
      }
      CoveringPositions(f[..last], n - 1);
    }
  }

  /** Every execution is reported and stored, in order, exactly when each is handled before its process moves on. */
  lemma AllStoredIffAllHandled(setup: Setup, w0: World, events: seq<Event>, n: string)
    requires Initial(w0)
    ensures w0.server.reports <= At(setup, w0, events, |events|).server.reports
    ensures
      var w := At(setup, w0, events, |events|);
      var stored, executions := StoredSince(w0, w, n), Flat(AgentOf(w, n).runs);
      && |stored| <= |executions|
      && (|stored| == |executions| <==>
            forall p: nat :: p < |executions| ==> Handled(setup, w0, events, n, |events|, p))
      && (|stored| == |executions| ==> forall p :: 0 <= p < |stored| ==>
            && stored[p].nodeID == n && stored[p].jobID == executions[p].job.jobID
            && stored[p].status == executions[p].status && stored[p].taskLogs == executions[p].logs)
  {
    var f := StoredReportsFollowExecutions(setup, w0, events, n);
    var executions := Flat(AgentOf(At(setup, w0, events, |events|), n).runs);
    FullPositions(f, |executions|);
    if forall p: nat :: p < |executions| ==> Handled(setup, w0, events, n, |events|, p) {
      CoveringPositions(f, |executions|);
    } else if |f| == |executions| {
      forall p: nat | p < |executions|
        ensures p in f
      {
        assert f[p] == p;
      }
    }
  }

  // ---------------------------------------------------------------- causality

  /**
   Event `k` is the deciding section of a poll of node `n`, made by its process number `r`, while the node was
   registered under that process's labels; an atomic sync at that moment gives `job`.
   */
  ghost predicate DispatchedAt(setup: Setup, w0: World, events: seq<Event>, n: string, k: nat, r: nat, job: Job) {
    && k < |events| && events[k] == AgentEvent(n, HandleSync)
    && var w := At(setup, w0, events, k);
    && AgentOf(w, n).phase.Polling? && AgentOf(w, n).phase.progress.Labelled? && |AgentOf(w, n).runs| == r + 1
    && n in w.server.nodes && w.server.nodes[n] == AgentOf(w, n).labels
    && AtomicSync(setup, w.server.nodes, w.server.currentJob, n) == JobResponse(job)
  }

  /** The pairs of a process number and a job that the first `i` events dispatched to node `n`. */
  ghost function DispatchedBefore(setup: Setup, w0: World, events: seq<Event>, n: string, i: nat): iset<(nat, Job)> {
    iset p: (nat, Job) | exists k: nat :: k < i && DispatchedAt(setup, w0, events, n, k, p.0, p.1)
  }

  /** Everything the agent holds or has executed is among `dispatched`. */
  ghost predicate Caused(dispatched: iset<(nat, Job)>, a: AgentState) {
    && (!a.phase.Down? ==> a.runs != [])
    && (forall r, x :: 0 <= r < |a.runs| && 0 <= x < |a.runs[r]| ==> (r, a.runs[r][x].job) in dispatched)
    && (a.phase.Fetched? ==> (|a.runs| - 1, a.phase.job) in dispatched)
    && (a.phase.Polling? && a.phase.progress.Answered? && a.phase.progress.response.JobResponse? ==>
          (|a.runs| - 1, a.phase.progress.response.job) in dispatched)
  }

  lemma MoveCaused(setup: Setup, s: Server, n: string, a: AgentState, m: Move, dispatched: iset<(nat, Job)>)
    requires Caused(dispatched, a)
    requires m.HandleSync? && a.phase.Polling? && a.phase.progress.Labelled? ==>
      var answer := Decide(setup, s.currentJob, a.phase.progress.labels);
      answer.JobResponse? ==> (|a.runs| - 1, answer.job) in dispatched
    ensures Caused(dispatched, MoveAgent(setup, s, n, a, m).1)
  {
    MoveKeepsRuns(setup, s, n, a, m);
    var b := MoveAgent(setup, s, n, a, m).1;
    forall r, x | 0 <= r < |b.runs| && 0 <= x < |b.runs[r]|
      ensures (r, b.runs[r][x].job) in dispatched
    {
      if r < |a.runs| && x < |a.runs[r]| {
        assert b.runs[r][x] == a.runs[r][x];
      }
    }
  }

  lemma CausedMonotone(earlier: iset<(nat, Job)>, now: iset<(nat, Job)>, a: AgentState)
    requires earlier <= now && Caused(earlier, a)
    ensures Caused(now, a)
  {
  }

  /** The read-locked section of a poll dispatches what it answers. */
  lemma DecisionDispatches(setup: Setup, w0: World, events: seq<Event>, n: string, k: nat)
    requires k < |events| && events[k] == AgentEvent(n, HandleSync)
    requires KnownByLabels(At(setup, w0, events, k).server.nodes, n, AgentOf(At(setup, w0, events, k), n))
    requires
      var a := AgentOf(At(setup, w0, events, k), n);
      a.phase.Polling? && a.phase.progress.Labelled?
    ensures
      var w := At(setup, w0, events, k);
      var a := AgentOf(w, n);
      var answer := Decide(setup, w.server.currentJob, a.phase.progress.labels);
      answer.JobResponse? ==> DispatchedAt(setup, w0, events, n, k, |a.runs| - 1, answer.job)
  {
  }

  /** What the next section of a poll would dispatch is already counted. */
  ghost predicate DecisionCounted(setup: Setup, w: World, e: Event, n: string, dispatched: iset<(nat, Job)>) {
    var a := AgentOf(w, n);
    e == AgentEvent(n, HandleSync) && a.phase.Polling? && a.phase.progress.Labelled? && a.runs != [] ==>
      var answer := Decide(setup, w.server.currentJob, a.phase.progress.labels);
      answer.JobResponse? ==> (|a.runs| - 1, answer.job) in dispatched
  }

  lemma EventCaused(setup: Setup, w: World, e: Event, n: string, dispatched: iset<(nat, Job)>)
    requires Caused(dispatched, AgentOf(w, n)) && DecisionCounted(setup, w, e, n, dispatched)
    ensures Caused(dispatched, AgentOf(Next(setup, w, e), n))
  {
    NextAgent(setup, w, e, n);
    if e.AgentEvent? && e.nodeID == n {
      MoveCaused(setup, w.server, n, AgentOf(w, n), e.move, dispatched);
    }
  }

  lemma DispatchedGrows(setup: Setup, w0: World, events: seq<Event>, n: string, i: nat)
    requires Initial(w0) && i < |events|
    ensures DispatchedBefore(setup, w0, events, n, i) <= DispatchedBefore(setup, w0, events, n, i + 1)
    ensures DecisionCounted(setup, At(setup, w0, events, i), events[i], n, DispatchedBefore(setup, w0, events, n, i + 1))
  {
    var a := AgentOf(At(setup, w0, events, i), n);
    if events[i] == AgentEvent(n, HandleSync) && a.phase.Polling? && a.phase.progress.Labelled? {
      RegisteredUnderOwnLabels(setup, w0, events, i, n);
      DecisionDispatches(setup, w0, events, n, i);
    }
  }

  lemma StepCaused(setup: Setup, w0: World, events: seq<Event>, i: nat, n: string)
    requires Initial(w0) && i < |events|
    requires Caused(DispatchedBefore(setup, w0, events, n, i), AgentOf(At(setup, w0, events, i), n))
    ensures Caused(DispatchedBefore(setup, w0, events, n, i + 1), AgentOf(At(setup, w0, events, i + 1), n))
  {
    var w, now := At(setup, w0, events, i), DispatchedBefore(setup, w0, events, n, i + 1);
    DispatchedGrows(setup, w0, events, n, i);
    CausedMonotone(DispatchedBefore(setup, w0, events, n, i), now, AgentOf(w, n));
    EventCaused(setup, w, events[i], n, now);
  }

  lemma NothingAtFirst(w: World, n: string, dispatched: iset<(nat, Job)>)
    requires Initial(w)
    ensures Caused(dispatched, AgentOf(w, n))
  {
    assert AgentOf(w, n) == FRESH;
  }

  lemma {:induction false} AlwaysCaused(setup: Setup, w0: World, events: seq<Event>, i: nat, n: string)
    requires Initial(w0) && i <= |events|
    ensures Caused(DispatchedBefore(setup, w0, events, n, i), AgentOf(At(setup, w0, events, i), n))
  {
    if i == 0 {
      NothingAtFirst(w0, n, DispatchedBefore(setup, w0, events, n, 0));
    } else {
      AlwaysCaused(setup, w0, events, i - 1, n);
      StepCaused(setup, w0, events, i - 1, n);
    }
  }

  /** Event `j` completes execution number `x` of process `r` of node `n`, namely `e`. */
  ghost predicate ExecutedAt(setup: Setup, w0: World, events: seq<Event>, n: string, j: nat, r: nat, x: nat, e: Execution) {
    && j < |events| && events[j].AgentEvent? && events[j].nodeID == n
    && var a := AgentOf(At(setup, w0, events, j), n);
    && Executes(a, events[j].move) && e == Execution(a.phase.job, events[j].move.status, events[j].move.logs)
    && |a.runs| == r + 1 && |a.runs[r]| == x
  }

  /** Every recorded execution was completed by one event of the run. */
  lemma {:induction false} ExecutionHappened(setup: Setup, w0: World, events: seq<Event>, i: nat, n: string, r: nat, x: nat)
    returns (j: nat)
    requires Initial(w0) && i <= |events|
    requires r < |AgentOf(At(setup, w0, events, i), n).runs| && x < |AgentOf(At(setup, w0, events, i), n).runs[r]|
    ensures j < i && ExecutedAt(setup, w0, events, n, j, r, x, AgentOf(At(setup, w0, events, i), n).runs[r][x])
  {
    var w := At(setup, w0, events, i - 1);
    var e, a := events[i - 1], AgentOf(w, n);
    NextAgent(setup, w, e, n);
    if e.AgentEvent? && e.nodeID == n {
      MoveKeepsRuns(setup, w.server, n, a, e.move);
    }
    if r < |a.runs| && x < |a.runs[r]| {
      j := ExecutionHappened(setup, w0, events, i - 1, n, r, x);
    } else {
      j := i - 1;
    }
  }

  /**
   Whatever a process executed was dispatched before, by a poll of that very process, after it had registered:
   event `k` decides the poll and event `j` completes the execution.
   */
  lemma ExecutionsWereDispatched(setup: Setup, w0: World, events: seq<Event>, n: string, r: nat, x: nat)
    returns (k: nat, j: nat)
    requires Initial(w0)
    requires r < |AgentOf(At(setup, w0, events, |events|), n).runs|
    requires x < |AgentOf(At(setup, w0, events, |events|), n).runs[r]|
    ensures k < j < |events|
    ensures
      var e := AgentOf(At(setup, w0, events, |events|), n).runs[r][x];
      DispatchedAt(setup, w0, events, n, k, r, e.job) && ExecutedAt(setup, w0, events, n, j, r, x, e)
  {
    var job := AgentOf(At(setup, w0, events, |events|), n).runs[r][x].job;
    j := ExecutionHappened(setup, w0, events, |events|, n, r, x);
    AlwaysCaused(setup, w0, events, j, n);
    assert (r, job) in DispatchedBefore(setup, w0, events, n, j);
    k :| k < j && DispatchedAt(setup, w0, events, n, k, r, job);
  }
}
