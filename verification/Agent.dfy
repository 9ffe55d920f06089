/**
 cmd/agent/main.go: the agent's job loop. The agent remembers only the ID of its last successful job, in memory;
 running a playbook is a nondeterministic status and output supplied by the caller.
 */
module Agent {
  import opened Basics
  import opened Types
  import opened Dispatch

  /** One run of ansible-playbook to completion. */
  datatype Execution = Execution(job: Job, status: Status, logs: string)

  function ReportFor(nodeID: string, e: Execution): Report {
    Report(nodeID, e.job.jobID, e.status, e.logs)
  }

  /** `r` says what node `nodeID` has to say about `e`. */
  predicate Reports(r: Report, nodeID: string, e: Execution) {
    r.nodeID == nodeID && r.jobID == e.job.jobID && r.status == e.status && r.taskLogs == e.logs
  }

  /** lastJobID moves on success only. */
  function Remembered(lastJobID: string, e: Execution): string {
    if e.status.Success? then e.job.jobID else lastJobID
  }

  // ---------------------------------------------------------------- execution histories

  /** What lastJobID holds after the executions of one process. */
  function LastSuccess(h: seq<Execution>): string {
    if h == [] then ""
    else if h[|h| - 1].status.Success? then h[|h| - 1].job.jobID
    else LastSuccess(h[..|h| - 1])
  }

  /** Every execution was of a job other than the one remembered at that moment. */
  ghost predicate Disciplined(h: seq<Execution>) {
    forall j :: 0 <= j < |h| ==> h[j].job.jobID != LastSuccess(h[..j])
  }

  /** A job that succeeded is executed again only after another job succeeded in between. */
  ghost predicate Separated(h: seq<Execution>) {
    forall i, j :: 0 <= i < j < |h| && h[i].status.Success? && h[i].job.jobID == h[j].job.jobID ==>
      exists k :: i < k < j && h[k].status.Success? && h[k].job.jobID != h[i].job.jobID
  }

  /** Nothing with an empty ID is executed while nothing has succeeded yet. */
  ghost predicate NamedUntilSuccess(h: seq<Execution>) {
    forall j :: 0 <= j < |h| && h[j].job.jobID == "" ==> exists i :: 0 <= i < j && h[i].status.Success?
  }

  /** The last success, or -1 when there is none, and what is remembered after it. */
  lemma {:induction false} LastSuccessPosition(h: seq<Execution>) returns (i: int)
    ensures -1 <= i < |h|
    ensures forall k :: i < k < |h| ==> h[k].status.Failed?
    ensures i == -1 ==> LastSuccess(h) == ""
    ensures i >= 0 ==> h[i].status.Success? && LastSuccess(h) == h[i].job.jobID
  {
    if h == [] {
      i := -1;
    } else if h[|h| - 1].status.Success? {
      i := |h| - 1;
    } else {
      i := LastSuccessPosition(h[..|h| - 1]);
    }
  }

  /** The check against lastJobID enforces separation, and nothing more than separation and named first jobs. */
  lemma DisciplinedIffSeparated(h: seq<Execution>)
    ensures Disciplined(h) <==> Separated(h) && NamedUntilSuccess(h)
  {
    if Disciplined(h) {
      forall i, j | 0 <= i < j < |h| && h[i].status.Success? && h[i].job.jobID == h[j].job.jobID
        ensures exists k :: i < k < j && h[k].status.Success? && h[k].job.jobID != h[i].job.jobID
      {
        var k := LastSuccessPosition(h[..j]);
        assert h[..j][i] == h[i];
        assert i <= k && h[..j][k] == h[k];
      }
      forall j | 0 <= j < |h| && h[j].job.jobID == ""
        ensures exists i :: 0 <= i < j && h[i].status.Success?
      {
        var k := LastSuccessPosition(h[..j]);
        assert k >= 0 && h[..j][k] == h[k];
      }
    }
    if Separated(h) && NamedUntilSuccess(h) {
      forall j | 0 <= j < |h|
        ensures h[j].job.jobID != LastSuccess(h[..j])
      {
        var k := LastSuccessPosition(h[..j]);
        assert forall x :: 0 <= x < j ==> h[..j][x] == h[x];
      }
    }
  }

  ghost predicate Uniform(h: seq<Execution>) {
    forall i, j :: 0 <= i < |h| && 0 <= j < |h| ==> h[i].job == h[j].job
  }

  /** Only the last execution may have succeeded. */
  ghost predicate FailedThenAtMostOneSuccess(h: seq<Execution>) {
    forall i :: 0 <= i < |h| - 1 ==> h[i].status.Failed?
  }

  /** Under one constant job a process fails any number of times and succeeds at most once, last. */
  lemma UniformRunsUntilSuccess(h: seq<Execution>)
    requires Disciplined(h) && Uniform(h)
    ensures FailedThenAtMostOneSuccess(h)
  {
    forall i | 0 <= i < |h| - 1
      ensures h[i].status.Failed?
    {
      assert h[..i + 1][i] == h[i];
      assert h[i + 1].job.jobID != LastSuccess(h[..i + 1]);
      assert h[i + 1].job == h[i].job;
    }
  }

  function Successes(h: seq<Execution>): nat {
    if h == [] then 0
    else Successes(h[..|h| - 1]) + (if h[|h| - 1].status.Success? then 1 else 0)
  }

  // ---------------------------------------------------------------- the agent

  /** What Poll can bring back: an error (refused, unreachable, undecodable), no content, or a job. */
  datatype PollResult = PollError | NoJob | GotJob(job: Job)

  function PollResultOf(r: SyncResponse): PollResult {
    match r
    case Forbidden => PollError
    case NoContent => NoJob
    case JobResponse(job) => GotJob(job)
  }

  /**
   `h` is what a process executes over `polls`: execution `i` is of the job that poll `f[i]` brought, and every other
   poll brought no job or the one that was remembered at that moment.
   */
  ghost predicate Follows(polls: seq<PollResult>, outcomes: nat -> (Status, string), h: seq<Execution>, f: seq<nat>) {
    && |f| == |h|
    && (forall i, j :: 0 <= i < j < |f| ==> f[i] < f[j])
    && (forall i :: 0 <= i < |f| ==>
          && f[i] < |polls| && polls[f[i]].GotJob?
          && h[i] == Execution(polls[f[i]].job, outcomes(f[i]).0, outcomes(f[i]).1))
    && (forall t: nat :: t < |polls| && t !in f && polls[t].GotJob? ==> exists i :: PassedOver(polls[t].job, h, f, t, i))
  }

  /** Poll `t` came after `i` executions and brought what the last success among them was of. */
  ghost predicate PassedOver(job: Job, h: seq<Execution>, f: seq<nat>, t: nat, i: nat) {
    && i <= |f| == |h|
    && (forall x :: 0 <= x < |f| ==> (f[x] < t <==> x < i))
    && job.jobID == LastSuccess(h[..i])
  }

  lemma PassedOverLater(job: Job, h: seq<Execution>, f: seq<nat>, t: nat, i: nat, e: Execution, next: nat)
    requires PassedOver(job, h, f, t, i) && t < next
    ensures PassedOver(job, h + [e], f + [next], t, i)
  {
    assert (h + [e])[..i] == h[..i];
  }

  lemma FollowsExecuted(polls: seq<PollResult>, outcomes: nat -> (Status, string), h: seq<Execution>, f: seq<nat>, p: PollResult)
    requires Follows(polls, outcomes, h, f) && p.GotJob?
    ensures
      var t := |polls|;
      Follows(polls + [p], outcomes, h + [Execution(p.job, outcomes(t).0, outcomes(t).1)], f + [t])
  {
    var t := |polls|;
    var e := Execution(p.job, outcomes(t).0, outcomes(t).1);
    forall u: nat | u < |polls + [p]| && u !in f + [t] && (polls + [p])[u].GotJob?
      ensures exists i :: PassedOver((polls + [p])[u].job, h + [e], f + [t], u, i)
    {
      assert u != t by {
        assert (f + [t])[|f|] == t;
      }
      assert u !in f by {
        assert forall x :: x in f ==> x in f + [t];
      }
      var i :| PassedOver(polls[u].job, h, f, u, i);
      PassedOverLater(polls[u].job, h, f, u, i, e, t);
    }
  }

  lemma FollowsPassed(polls: seq<PollResult>, outcomes: nat -> (Status, string), h: seq<Execution>, f: seq<nat>, p: PollResult)
    requires Follows(polls, outcomes, h, f) && (p.GotJob? ==> p.job.jobID == LastSuccess(h))
    ensures Follows(polls + [p], outcomes, h, f)
  {
    forall u: nat | u < |polls + [p]| && u !in f && (polls + [p])[u].GotJob?
      ensures exists i :: PassedOver((polls + [p])[u].job, h, f, u, i)
    {
      if u == |polls| {
        assert h[..|h|] == h;
        assert PassedOver(p.job, h, f, u, |f|);
      } else {
        assert (polls + [p])[u] == polls[u];
      }
    }
  }

  lemma FollowsNext(polls: seq<PollResult>, outcomes: nat -> (Status, string), t: nat,
                    before: seq<Execution>, after: seq<Execution>, f: seq<nat>)
    returns (g: seq<nat>)
    requires t < |polls| && Follows(polls[..t], outcomes, before, f)
    requires
      || (after == before && (polls[t].GotJob? ==> polls[t].job.jobID == LastSuccess(before)))
      || (polls[t].GotJob? && after == before + [Execution(polls[t].job, outcomes(t).0, outcomes(t).1)])
    ensures Follows(polls[..t + 1], outcomes, after, g)
  {
    assert polls[..t + 1] == polls[..t] + [polls[t]];
    if after == before {
      FollowsPassed(polls[..t], outcomes, before, f, polls[t]);
      g := f;
    } else {
      FollowsExecuted(polls[..t], outcomes, before, f, polls[t]);
      g := f + [t];
    }
  }

  /** All polls that bring a job bring the same one. */
  ghost predicate OnePolledJob(polls: seq<PollResult>) {
    forall p, q :: p in polls && q in polls && p.GotJob? && q.GotJob? ==> p.job == q.job
  }

  lemma FollowsUniform(polls: seq<PollResult>, outcomes: nat -> (Status, string), h: seq<Execution>, f: seq<nat>)
    requires Follows(polls, outcomes, h, f) && OnePolledJob(polls)
    ensures Uniform(h)
  {
    forall i, j | 0 <= i < |h| && 0 <= j < |h|
      ensures h[i].job == h[j].job
    {
      assert polls[f[i]] in polls && polls[f[j]] in polls;
    }
  }

  class AgentProcess {
    const nodeID: string
    var lastJobID: string
    /** Every completed execution of this process. */
    ghost var history: seq<Execution>

    ghost predicate Valid()
      reads this
    {
      lastJobID == LastSuccess(history) && Disciplined(history)
    }

    constructor (nodeID: string)
      ensures Valid() && history == [] && this.nodeID == nodeID
    {
      this.nodeID := nodeID;
      lastJobID := "";
      history := [];
    }

    /** `status` and `output` are what ExecutePlaybook gives if it is called; the report is what is sent. */
    method ProcessJob(job: Option<Job>, status: Status, output: string) returns (report: Option<Report>)
      requires Valid()
      modifies this
      ensures Valid()
      ensures report.Some? <==> job.Some? && job.value.jobID != old(lastJobID)
      ensures report.None? ==> history == old(history) && lastJobID == old(lastJobID)
      ensures report.Some? ==>
        var e := Execution(job.value, status, output);
        && history == old(history) + [e]
        && Reports(report.value, nodeID, e)
        && lastJobID == if status.Success? then job.value.jobID else old(lastJobID)
    {
      if job.None? {
        return None;
      }
      if job.value.jobID == lastJobID {
        return None;
      }
      if status.Success? {
        lastJobID := job.value.jobID;
      }
      ghost var e := Execution(job.value, status, output);
      assert forall j :: 0 <= j < |history| ==> (history + [e])[..j] == history[..j];
      assert (history + [e])[..|history|] == history;
      history := history + [e];
      report := Some(Report(nodeID, job.value.jobID, status, output));
    }

    /** The polling loop of Run over any sequence of poll results and execution outcomes. */
    method Run(polls: seq<PollResult>, outcomes: nat -> (Status, string)) returns (sent: seq<Report>)
      requires Valid() && history == []
      modifies this
      ensures Valid() && Separated(history)
      ensures exists f :: Follows(polls, outcomes, history, f)
      ensures |sent| == |history| && forall i :: 0 <= i < |sent| ==> Reports(sent[i], nodeID, history[i])
      ensures OnePolledJob(polls) ==> FailedThenAtMostOneSuccess(history)
    {
      sent := [];
      ghost var f: seq<nat> := [];
      for t := 0 to |polls|
        invariant Valid()
        invariant Follows(polls[..t], outcomes, history, f)
        invariant |sent| == |history| && forall i :: 0 <= i < |sent| ==> Reports(sent[i], nodeID, history[i])
      {
        var job := None;
        match polls[t] {
          case PollError =>
            f := FollowsNext(polls, outcomes, t, history, history, f);
            continue;
          case NoJob =>
          case GotJob(j) => job := Some(j);
        }
        ghost var before := history;
        var report := ProcessJob(job, outcomes(t).0, outcomes(t).1);
        f := FollowsNext(polls, outcomes, t, before, history, f);
        if report.Some? {
          sent := sent + [report.value];
        }
      }
      assert polls[..|polls|] == polls;
      DisciplinedIffSeparated(history);
      if OnePolledJob(polls) {
        FollowsUniform(polls, outcomes, history, f);
        UniformRunsUntilSuccess(history);
      }
    }
  }
}
