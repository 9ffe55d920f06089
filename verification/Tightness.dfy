/**
 The bound of Protocol.SuccessesAreBounded is exact: for every number of starts, and without manifests every
 number of job changes, some run reaches it.
 */
module Tightness {
  import opened Basics
  import opened Types
  import opened Dispatch
  import opened Agent
  import opened Protocol

  /** The world after all of `events`, from the left. */
  function After(setup: Setup, w: World, events: seq<Event>): World
    decreases |events|
  {
    if events == [] then w else After(setup, Next(setup, w, events[0]), events[1..])
  }

  lemma AfterFirst(setup: Setup, w: World, e: Event, rest: seq<Event>)
    ensures After(setup, w, [e] + rest) == After(setup, Next(setup, w, e), rest)
  {
    assert ([e] + rest)[1..] == rest;
  }

  lemma {:induction false} AfterIsAt(setup: Setup, w0: World, events: seq<Event>, i: nat)
    requires i <= |events|
    ensures At(setup, w0, events, |events|) == After(setup, At(setup, w0, events, i), events[i..])
    decreases |events| - i
  {
    if i < |events| {
      AfterIsAt(setup, w0, events, i + 1);
      assert At(setup, w0, events, i + 1) == Next(setup, At(setup, w0, events, i), events[i]);
      AfterFirst(setup, At(setup, w0, events, i), events[i], events[i + 1..]);
      assert events[i..] == [events[i]] + events[i + 1..];
    }
  }

  lemma {:induction false} AfterConcat(setup: Setup, w: World, e1: seq<Event>, e2: seq<Event>)
    decreases |e1|
    ensures After(setup, w, e1 + e2) == After(setup, After(setup, w, e1), e2)
  {
    if e1 == [] {
      assert e1 + e2 == e2;
    } else {
      assert (e1 + e2)[1..] == e1[1..] + e2;
      AfterConcat(setup, Next(setup, w, e1[0]), e1[1..], e2);
    }
  }

  /** Node `n` has registered, waits for its next tick, and would be given `job`, which it has not just done. */
  ghost predicate Ready(setup: Setup, w: World, n: string, job: Job) {
    var a := AgentOf(w, n);
    && n in w.agents && a.phase.Idle? && a.runs != []
    && n in w.server.nodes
    && Decide(setup, w.server.currentJob, w.server.nodes[n]) == JobResponse(job)
    && job.jobID != a.lastJobID
  }

  function SuccessOf(job: Job): Execution {
    Execution(job, Success, "")
  }

  function Move1(setup: Setup, w: World, n: string, m: Move): World {
    Next(setup, w, AgentEvent(n, m))
  }

  const FETCH: seq<Move> := [BeginPoll, HandleSync, HandleSync, HandleSync, Deliver]

  const EXECUTE: seq<Move> := [Process(Success, ""), HandleReport, EndReport]

  const POLL: seq<Move> := FETCH + EXECUTE

  const REGISTER: seq<Move> := [HandleRegister, AckRegister]

  function EventsOf(n: string, moves: seq<Move>): seq<Event> {
    seq(|moves|, i requires 0 <= i < |moves| => AgentEvent(n, moves[i]))
  }

  lemma AfterMove(setup: Setup, w: World, n: string, moves: seq<Move>)
    requires moves != []
    ensures After(setup, w, EventsOf(n, moves)) == After(setup, Move1(setup, w, n, moves[0]), EventsOf(n, moves[1..]))
  {
    assert EventsOf(n, moves)[1..] == EventsOf(n, moves[1..]);
  }

  function Set(w: World, n: string, a: AgentState): World {
    w.(agents := w.agents[n := a])
  }

  /** The same, with one more report stored. */
  function SetReported(w: World, n: string, a: AgentState, r: Report): World {
    Set(w.(server := w.server.(reports := w.server.reports + [r])), n, a)
  }

  /** The three sections of one sync request, undisturbed. */
  lemma SyncAnswers(setup: Setup, w: World, n: string, a: AgentState)
    requires n in w.server.nodes && a == AgentOf(w, n) && a.phase == Polling(Arrived)
    ensures
      var answer := Decide(setup, w.server.currentJob, w.server.nodes[n]);
      Move1(setup, Move1(setup, Move1(setup, w, n, HandleSync), n, HandleSync), n, HandleSync)
      == Set(w, n, a.(phase := Polling(Answered(answer))))
  {
    var w1 := Move1(setup, w, n, HandleSync);
    assert w1 == Set(w, n, a.(phase := Polling(Checked)));
    var w2 := Move1(setup, w1, n, HandleSync);
    assert w2 == Set(w, n, a.(phase := Polling(Labelled(w.server.nodes[n]))));
  }

  lemma AfterFetch(setup: Setup, w: World, n: string)
    ensures
      var w1 := Move1(setup, w, n, BeginPoll);
      var w4 := Move1(setup, Move1(setup, Move1(setup, w1, n, HandleSync), n, HandleSync), n, HandleSync);
      After(setup, w, EventsOf(n, FETCH)) == Move1(setup, w4, n, Deliver)
  {
    var w1 := Move1(setup, w, n, BeginPoll);
    var w2 := Move1(setup, w1, n, HandleSync);
    var w3 := Move1(setup, w2, n, HandleSync);
    var w4 := Move1(setup, w3, n, HandleSync);
    AfterMove(setup, w, n, FETCH);
    AfterMove(setup, w1, n, FETCH[1..]);
    AfterMove(setup, w2, n, FETCH[2..]);
    AfterMove(setup, w3, n, FETCH[3..]);
    AfterMove(setup, w4, n, FETCH[4..]);
    assert EventsOf(n, FETCH[5..]) == [];
  }

  lemma FetchSucceeds(setup: Setup, w: World, n: string, job: Job)
    requires Ready(setup, w, n, job)
    ensures After(setup, w, EventsOf(n, FETCH)) == Set(w, n, AgentOf(w, n).(phase := Fetched(job)))
  {
    var a := AgentOf(w, n);
    var w1 := Move1(setup, w, n, BeginPoll);
    assert w1 == Set(w, n, a.(phase := Polling(Arrived)));
    SyncAnswers(setup, w1, n, AgentOf(w1, n));
    var w4 := Set(w, n, a.(phase := Polling(Answered(JobResponse(job)))));
    assert Move1(setup, w4, n, Deliver) == Set(w, n, a.(phase := Fetched(job)));
    AfterFetch(setup, w, n);
  }

  lemma ReportIsStored(setup: Setup, w: World, n: string, a: AgentState, r: Report)
    requires a.phase == Reporting(r, false)
    ensures Move1(setup, Move1(setup, Set(w, n, a), n, HandleReport), n, EndReport) == SetReported(w, n, a.(phase := Idle), r)
  {
    var w2 := Move1(setup, Set(w, n, a), n, HandleReport);
    assert w2 == SetReported(w, n, a.(phase := Reporting(r, true)), r);
  }

  lemma ExecuteSucceeds(setup: Setup, w: World, n: string, a: AgentState, job: Job)
    requires a.runs != [] && job.jobID != a.lastJobID
    ensures After(setup, Set(w, n, a.(phase := Fetched(job))), EventsOf(n, EXECUTE))
         == SetReported(w, n, Executed(n, a, SuccessOf(job)).(phase := Idle), ReportFor(n, SuccessOf(job)))
  {
    var w0 := Set(w, n, a.(phase := Fetched(job)));
    var w1 := Move1(setup, w0, n, Process(Success, ""));
    assert w1 == Set(w, n, Executed(n, a, SuccessOf(job)));
    var w2 := Move1(setup, w1, n, HandleReport);
    ReportIsStored(setup, w, n, Executed(n, a, SuccessOf(job)), ReportFor(n, SuccessOf(job)));
    AfterMove(setup, w0, n, EXECUTE);
    AfterMove(setup, w1, n, EXECUTE[1..]);
    AfterMove(setup, w2, n, EXECUTE[2..]);
    assert EventsOf(n, EXECUTE[3..]) == [];
  }

  /** One poll, one success, one stored report. */
  lemma PollSucceeds(setup: Setup, w: World, n: string, job: Job)
    requires Ready(setup, w, n, job)
    ensures After(setup, w, EventsOf(n, POLL))
         == SetReported(w, n, Executed(n, AgentOf(w, n), SuccessOf(job)).(phase := Idle), ReportFor(n, SuccessOf(job)))
  {
    FetchSucceeds(setup, w, n, job);
    ExecuteSucceeds(setup, w, n, AgentOf(w, n), job);
    assert EventsOf(n, POLL) == EventsOf(n, FETCH) + EventsOf(n, EXECUTE);
    AfterConcat(setup, w, EventsOf(n, FETCH), EventsOf(n, EXECUTE));
  }

  /** A start and a registration make a node ready for the job its labels give. */
  lemma StartMakesReady(setup: Setup, w: World, n: string, labels: Labels, job: Job)
    requires AgentOf(w, n).phase.Down?
    requires Decide(setup, w.server.currentJob, labels) == JobResponse(job)
    ensures
      var w' := After(setup, w, EventsOf(n, [Start(labels)] + REGISTER));
      && Ready(setup, w', n, job)
      && AgentOf(w', n) == AgentState(Idle, labels, "", AgentOf(w, n).runs + [[]])
      && w'.server.currentJob == w.server.currentJob && w'.jobChanges == w.jobChanges
      && w'.server.reports == w.server.reports
  {
    DecideModes(setup, w.server.currentJob, labels, w.server.currentJob, labels);
    var moves := [Start(labels)] + REGISTER;
    var w1 := Move1(setup, w, n, Start(labels));
    var w2 := Move1(setup, w1, n, HandleRegister);
    assert AgentOf(w2, n) == AgentState(Registering(true), labels, "", AgentOf(w, n).runs + [[]]);
    var w3 := Move1(setup, w2, n, AckRegister);
    AfterMove(setup, w, n, moves);
    AfterMove(setup, w1, n, moves[1..]);
    AfterMove(setup, w2, n, moves[2..]);
    assert EventsOf(n, moves[3..]) == [];
    assert After(setup, w, EventsOf(n, moves)) == w3;
  }

  /** `count` reports of node `n` were stored since `w0`. */
  ghost predicate StoredCount(w0: World, w: World, n: string, count: nat) {
    w0.server.reports <= w.server.reports && |StoredSince(w0, w, n)| == count
  }

  lemma StoredOneMore(w0: World, w: World, n: string, count: nat, a: AgentState, e: Execution)
    requires StoredCount(w0, w, n, count)
    ensures StoredCount(w0, SetReported(w, n, a, ReportFor(n, e)), n, count + 1)
  {
    StoredGrows(w.server.reports, w0.server.reports, ReportFor(n, e), n);
  }

  /**
   The node has succeeded once per start and once per job change, with a report stored each time, and now waits,
   having done the current job.
   */
  ghost predicate Saturated(setup: Setup, w0: World, w: World, n: string, starts: nat, changes: nat, job: Job) {
    var a := AgentOf(w, n);
    && n in w.agents && a.phase.Idle? && a.runs != [] && |a.runs| == starts
    && n in w.server.nodes && a.labels == w.server.nodes[n]
    && w.jobChanges == changes
    && StoredCount(w0, w, n, starts + changes)
    && |Flat(a.runs)| == starts + changes
    && TotalSuccesses(a.runs) == starts + changes
    && Decide(setup, w.server.currentJob, a.labels) == JobResponse(job) && a.lastJobID == job.jobID
  }

  lemma FirstSuccess(setup: Setup, w0: World, w: World, n: string, labels: Labels, job: Job) returns (events: seq<Event>)
    requires AgentOf(w, n).phase.Down? && TotalSuccesses(AgentOf(w, n).runs) == |AgentOf(w, n).runs|
    requires Decide(setup, w.server.currentJob, labels) == JobResponse(job) && w.jobChanges == 0
    requires StoredCount(w0, w, n, |AgentOf(w, n).runs|) && |Flat(AgentOf(w, n).runs)| == |AgentOf(w, n).runs|
    ensures Saturated(setup, w0, After(setup, w, events), n, |AgentOf(w, n).runs| + 1, 0, job)
    ensures After(setup, w, events).server.currentJob == w.server.currentJob
  {
    var start, poll := EventsOf(n, [Start(labels)] + REGISTER), EventsOf(n, POLL);
    events := start + poll;
    var runs := AgentOf(w, n).runs;
    var w1 := After(setup, w, start);
    StartMakesReady(setup, w, n, labels, job);
    PollSucceeds(setup, w1, n, job);
    AfterConcat(setup, w, start, poll);
    TotalSuccessesStarted(runs);
    TotalSuccessesExecuted(runs + [[]], SuccessOf(job));
    FlatStarted(runs);
    FlatExecuted(n, AgentOf(w1, n), SuccessOf(job));
    StoredOneMore(w0, w1, n, |runs|, Executed(n, AgentOf(w1, n), SuccessOf(job)).(phase := Idle), SuccessOf(job));
    RegisteredLabels(setup, w, n, labels);
  }

  lemma RegisteredLabels(setup: Setup, w: World, n: string, labels: Labels)
    requires AgentOf(w, n).phase.Down?
    ensures
      var w' := After(setup, w, EventsOf(n, [Start(labels)] + REGISTER));
      n in w'.server.nodes && w'.server.nodes[n] == labels
  {
    var moves := [Start(labels)] + REGISTER;
    var w1 := Move1(setup, w, n, Start(labels));
    var w2 := Move1(setup, w1, n, HandleRegister);
    AfterMove(setup, w, n, moves);
    AfterMove(setup, w1, n, moves[1..]);
    AfterMove(setup, w2, n, moves[2..]);
    assert EventsOf(n, moves[3..]) == [];
  }

  /** `k` starts, each with one success. */
  lemma {:induction false} StartsSaturate(setup: Setup, w0: World, n: string, labels: Labels, job: Job, k: nat) returns (events: seq<Event>)
    requires Initial(w0) && k > 0
    requires Decide(setup, w0.server.currentJob, labels) == JobResponse(job)
    ensures Saturated(setup, w0, After(setup, w0, events), n, k, 0, job)
    ensures After(setup, w0, events).server.currentJob == w0.server.currentJob
  {
    if k == 1 {
      assert w0.server.reports[|w0.server.reports|..] == [];
      events := FirstSuccess(setup, w0, w0, n, labels, job);
    } else {
      var earlier := StartsSaturate(setup, w0, n, labels, job, k - 1);
      var crash := [AgentEvent(n, Crash)];
      var w1 := After(setup, w0, earlier);
      var w2 := Next(setup, w1, crash[0]);
      AfterConcat(setup, w0, earlier, crash);
      assert After(setup, w1, crash) == w2 by {
        assert crash[1..] == [];
      }
      var last := FirstSuccess(setup, w0, w2, n, labels, job);
      events := earlier + crash + last;
      AfterConcat(setup, w0, earlier + crash, last);
    }
  }

  /** One more job under a new ID, and one more success. */
  lemma ChangeSaturates(setup: Setup, w0: World, w: World, n: string, starts: nat, changes: nat, job: Job)
    returns (events: seq<Event>, job': Job)
    requires !HasManifests(setup) && Saturated(setup, w0, w, n, starts, changes, job)
    ensures Saturated(setup, w0, After(setup, w, events), n, starts, changes + 1, job')
  {
    DecideModes(setup, w.server.currentJob, AgentOf(w, n).labels, w.server.currentJob, AgentOf(w, n).labels);
    job' := job.(jobID := job.jobID + "+");
    var set_ := [SetCurrentJob(job')];
    var poll := EventsOf(n, POLL);
    events := set_ + poll;
    var w1 := Next(setup, w, set_[0]);
    assert After(setup, w, set_) == w1 by {
      assert set_[1..] == [];
    }
    DecideModes(setup, job', AgentOf(w, n).labels, job', AgentOf(w, n).labels);
    assert |job'.jobID| != |job.jobID|;
    PollSucceeds(setup, w1, n, job');
    AfterConcat(setup, w, set_, poll);
    TotalSuccessesExecuted(AgentOf(w, n).runs, SuccessOf(job'));
    FlatExecuted(n, AgentOf(w1, n), SuccessOf(job'));
    StoredOneMore(w0, w1, n, starts + changes, Executed(n, AgentOf(w1, n), SuccessOf(job')).(phase := Idle), SuccessOf(job'));
  }

  lemma {:induction false} ChangesSaturate(setup: Setup, w0: World, w: World, n: string, starts: nat, job: Job, m: nat)
    returns (events: seq<Event>, job': Job)
    requires Saturated(setup, w0, w, n, starts, 0, job)
    requires m > 0 ==> !HasManifests(setup)
    ensures Saturated(setup, w0, After(setup, w, events), n, starts, m, job')
  {
    if m == 0 {
      events, job' := [], job;
    } else {
      var earlier, job1 := ChangesSaturate(setup, w0, w, n, starts, job, m - 1);
      var last, job2 := ChangeSaturates(setup, w0, After(setup, w, earlier), n, starts, m - 1, job1);
      events, job' := earlier + last, job2;
      AfterConcat(setup, w, earlier, last);
    }
  }

  /**
   The bound is reached: a node whose labels are given a job can succeed exactly `k` times in `k` starts, and
   without manifests `k + m` times in `k` starts and `m` job changes. So many executions leave as many stored reports.
   */
  lemma BoundIsReached(setup: Setup, w0: World, n: string, labels: Labels, k: nat, m: nat) returns (events: seq<Event>)
    requires Initial(w0) && k > 0
    requires m > 0 ==> !HasManifests(setup)
    requires Decide(setup, w0.server.currentJob, labels).JobResponse?
    ensures
      var w := At(setup, w0, events, |events|);
      && |AgentOf(w, n).runs| == k && w.jobChanges == m
      && TotalSuccesses(AgentOf(w, n).runs) == k + m
      && |Flat(AgentOf(w, n).runs)| == k + m
      && w0.server.reports <= w.server.reports && |StoredSince(w0, w, n)| == k + m
  {
    var job := Decide(setup, w0.server.currentJob, labels).job;
    var starts := StartsSaturate(setup, w0, n, labels, job, k);
    var changes, _ := ChangesSaturate(setup, w0, After(setup, w0, starts), n, k, job, m);
    events := starts + changes;
    AfterConcat(setup, w0, starts, changes);
    AfterIsAt(setup, w0, events, 0);
    assert events[0..] == events;
  }
}
