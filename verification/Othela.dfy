/**
 cmd/othela/server.go: the control plane as an object. Its handlers are proved against Dispatch and Storage;
 HTTP and JSON are outside, a 200/204/403 reply being a SyncResponse.
 */
module Othela {
  import opened Basics
  import opened Types
  import opened Manifests
  import opened Playbooks
  import opened Storage
  import opened Dispatch

  datatype NodeRegistration = NodeRegistration(nodeID: string, labels: Labels)

  const STATUS_OK := 200
  const STATUS_BAD_REQUEST := 400
  const STATUS_SERVER_ERROR := 500
  const STATUS_UNAVAILABLE := 503

  /**
   The job a server with a loader starts from: the content filed under the first playbook's ID when it can be
   read, and otherwise the built-in job `mock` named after the clock. It never has an empty ID.
   */
  function FallbackJob(setup: Setup, disk: string -> Option<string>, mock: string, now: string): (job: Job)
    ensures job.jobID != ""
    ensures job.jobID == "job-" + now || (setup.playbooks != [] && job.jobID == "job-" + setup.playbooks[0].id)
  {
    var index := IndexOf(setup.playbooks);
    var content :=
      if setup.playbooks != [] && setup.playbooks[0].id in index then disk(index[setup.playbooks[0].id].fullPath)
      else None;
    if content.Some? then
      Job("job-" + setup.playbooks[0].id,
          if setup.testRepoURL != "" then setup.testRepoURL else DEFAULT_REPO_URL,
          "main", content.value, "playbook.yml", map[])
    else
      Job("job-" + now, "", "", mock, "", map[])
  }

  /** What a new server with a loader does: one scan, then the first playbook's content or the built-in job. */
  method StartFrom(loader: Loader, dir: Option<seq<Entry>>, disk: string -> Option<string>,
                   testRepoURL: string, mock: string, now: string)
    returns (playbooks: seq<Playbook>, currentJob: Job)
    modifies loader
    ensures playbooks == if dir.Some? then Discovered(loader.hash, loader.baseDir, dir.value) else []
    ensures loader.playbooks == IndexOf(playbooks)
    ensures currentJob == FallbackJob(Setup(playbooks, testRepoURL), disk, mock, now)
  {
    playbooks, currentJob := [], NO_JOB;
    var scan := loader.Scan(dir);
    if scan.Ok? {
      playbooks := scan.value;
      if |playbooks| > 0 {
        var content := loader.Load(playbooks[0].id, disk);
        if content.Ok? {
          var repoURL := testRepoURL;
          if repoURL == "" {
            repoURL := DEFAULT_REPO_URL;
          }
          currentJob := Job("job-" + playbooks[0].id, repoURL, "main", content.value, "playbook.yml", map[]);
        }
      }
    }
    if currentJob.jobID == "" {
      currentJob := Job("job-" + now, "", "", mock, "", map[]);
    }
  }

  /** The built-in job, named after the clock. */
  predicate IsBuiltIn(job: Job, mock: string, now: string) {
    && job.jobID == "job-" + now && job.playbookContent == mock
    && job.repoURL == "" && job.version == "" && job.playbookPath == "" && job.extraVars == map[]
  }

  /**
   When the first playbook's content is used: `i` is the last listed playbook with the first one's ID, which is the
   first itself unless IDs collide, and its file can be read.
   */
  lemma FallbackJobIs(setup: Setup, disk: string -> Option<string>, mock: string, now: string) returns (i: int)
    ensures setup.playbooks == [] ==> IsBuiltIn(FallbackJob(setup, disk, mock, now), mock, now)
    ensures setup.playbooks != [] ==> 0 <= i && LastWithID(setup.playbooks, setup.playbooks[0].id, i)
    ensures setup.playbooks != [] && DistinctIDs(setup.playbooks) ==> i == 0
    ensures setup.playbooks != [] ==>
      var job := FallbackJob(setup, disk, mock, now);
      match disk(setup.playbooks[i].fullPath)
      case None => IsBuiltIn(job, mock, now)
      case Some(content) =>
        && job.jobID == "job-" + setup.playbooks[0].id && job.playbookContent == content
        && job.repoURL == (if setup.testRepoURL != "" then setup.testRepoURL
                           else "http://git-server:3000/helvilette/nginx-collection.git")
        && job.version == "main" && job.playbookPath == "playbook.yml" && job.extraVars == map[]
  {
    i := 0;
    if setup.playbooks != [] {
      i := IndexAgreesWithList(setup.playbooks, setup.playbooks[0].id);
    }
  }

  ghost predicate EmptyNodes(store: NodeStore)
    reads store.Footprint()
  {
    store.NodesInMemory? && store.memory.nodes == map[]
  }

  ghost predicate EmptyReports(store: ReportStore)
    reads store.Footprint()
  {
    store.ReportsInMemory? && store.memory.reports == []
  }

  class Server {
    const nodeStore: NodeStore
    const reportStore: ReportStore
    const loader: Loader?
    const testRepoURL: string
    var playbooks: seq<Playbook>
    var currentJob: Job

    ghost predicate Valid()
      reads nodeStore.Footprint(), reportStore.Footprint()
    {
      nodeStore.Valid() && reportStore.Valid()
    }

    function SetupOf(): Setup
      reads this
    {
      Setup(playbooks, testRepoURL)
    }

    /** NewServerWithJob: no loader, empty stores. */
    constructor WithJob(job: Job)
      ensures Valid() && loader == null
      ensures EmptyNodes(nodeStore) && EmptyReports(reportStore)
      ensures fresh(nodeStore.Footprint()) && fresh(reportStore.Footprint())
      ensures playbooks == [] && currentJob == job
    {
      var nodes := new MemoryNodeStore();
      var reports := new MemoryReportStore();
      nodeStore := NodesInMemory(nodes);
      reportStore := ReportsInMemory(reports);
      loader := null;
      testRepoURL := "";
      playbooks := [];
      currentJob := job;
    }

    /**
     NewServerWithConfig, over any stores; those that are not given are fresh memory stores. `dir` is what the
     playbook directory lists, `disk` its file contents, `mock` the text of the built-in job, `now` the decimal Unix
     time. Without a loader there is no fallback job.
     */
    constructor WithConfig(nodes: Option<NodeStore>, reports: Option<ReportStore>, loader: Loader?,
                           dir: Option<seq<Entry>>, disk: string -> Option<string>,
                           testRepoURL: string, mock: string, now: string)
      requires nodes.Some? ==> nodes.value.Valid()
      requires reports.Some? ==> reports.value.Valid()
      modifies loader
      ensures Valid() && this.loader == loader && this.testRepoURL == testRepoURL
      ensures if nodes.Some? then nodeStore == nodes.value else EmptyNodes(nodeStore) && fresh(nodeStore.Footprint())
      ensures if reports.Some? then reportStore == reports.value else EmptyReports(reportStore) && fresh(reportStore.Footprint())
      ensures loader == null ==> playbooks == [] && currentJob == NO_JOB
      ensures loader != null ==>
        && playbooks == (if dir.Some? then Discovered(loader.hash, loader.baseDir, dir.value) else [])
        && loader.playbooks == IndexOf(playbooks)
        && currentJob == FallbackJob(SetupOf(), disk, mock, now)
    {
      var nodeStore': NodeStore;
      if nodes.Some? {
        nodeStore' := nodes.value;
      } else {
        var memory := new MemoryNodeStore();
        nodeStore' := NodesInMemory(memory);
      }
      var reportStore': ReportStore;
      if reports.Some? {
        reportStore' := reports.value;
      } else {
        var memory := new MemoryReportStore();
        reportStore' := ReportsInMemory(memory);
      }
      this.nodeStore := nodeStore';
      this.reportStore := reportStore';
      this.loader := loader;
      this.testRepoURL := testRepoURL;
      this.playbooks := [];
      this.currentJob := NO_JOB;
      new;
      if loader != null {
        playbooks, currentJob := StartFrom(loader, dir, disk, testRepoURL, mock, now);
      }
    }

    method SetCurrentJob(job: Job)
      modifies this`currentJob
      ensures currentJob == job
    {
      currentJob := job;
    }

    /** The reply repeats the registration; a body that does not decode changes nothing. */
    method HandleRegisterNode(body: Option<NodeRegistration>, now: int) returns (status: int, reply: Option<NodeRegistration>)
      requires Valid()
      modifies nodeStore.Footprint()
      ensures Valid() && reply == body && reportStore.Reports() == old(reportStore.Reports())
      ensures body.None? ==> status == 400 && nodeStore.Nodes() == old(nodeStore.Nodes())
      ensures body.Some? ==>
        status == 200 && nodeStore.Nodes() == old(nodeStore.Nodes())[body.value.nodeID := body.value.labels]
    {
      if body.None? {
        return STATUS_BAD_REQUEST, None;
      }
      nodeStore.Register(body.value.nodeID, body.value.labels, now, reportStore);
      return STATUS_OK, Some(body.value);
    }

    method HandleReport(body: Option<Report>, now: int) returns (status: int)
      requires Valid()
      modifies reportStore.Footprint()
      ensures Valid() && nodeStore.Nodes() == old(nodeStore.Nodes())
      ensures body.None? ==> status == 400 && reportStore.Reports() == old(reportStore.Reports())
      ensures body.Some? ==>
        status == 200 && reportStore.Reports() == old(reportStore.Reports())
          + [Report(body.value.nodeID, body.value.jobID, body.value.status,
                    if reportStore.ReportsInSQLite? && body.value.taskLogs == "" then "{}" else body.value.taskLogs)]
    {
      if body.None? {
        return STATUS_BAD_REQUEST;
      }
      reportStore.Save(body.value, now, nodeStore);
      return STATUS_OK;
    }

    /** Rescans the directory: the loader's index changes, the playbooks that are dispatched do not. */
    method HandlePlaybooks(dir: Option<seq<Entry>>) returns (status: int, list: seq<Playbook>)
      modifies loader
      ensures SetupOf() == old(SetupOf())
      ensures status == if loader == null then 503 else if dir.None? then 500 else 200
      ensures loader != null && dir.Some? ==> list == Discovered(loader.hash, loader.baseDir, dir.value)
      ensures loader != null ==> loader.playbooks == IndexOf(list)
    {
      if loader == null {
        return STATUS_UNAVAILABLE, [];
      }
      var scan := loader.Scan(dir);
      if scan.Err? {
        return STATUS_SERVER_ERROR, [];
      }
      return STATUS_OK, scan.value;
    }

    /** First locked read of handleSync. */
    method CheckRegistered(nodeID: string) returns (p: SyncProgress)
      requires Valid()
      ensures p == SyncStep(SetupOf(), nodeStore.Nodes(), currentJob, nodeID, Arrived)
    {
      var registered := nodeStore.IsRegistered(nodeID);
      p := if registered then Checked else Answered(Forbidden);
    }

    /** Second locked read of handleSync; the `ok` flag is discarded, as in the source. */
    method ReadLabels(nodeID: string) returns (p: SyncProgress)
      requires Valid()
      ensures p == SyncStep(SetupOf(), nodeStore.Nodes(), currentJob, nodeID, Checked)
    {
      var labels, _ := nodeStore.GetLabels(nodeID);
      p := Labelled(labels);
    }

    /** First loop: the first playbook with a match, and the first of its matching groups. */
    method MatchPlaybooks(labels: Labels) returns (matchedJob: Option<Job>)
      ensures matchedJob == ManifestJob(SetupOf(), labels)
      ensures if matchedJob.Some? then JobOfFirstMatch(playbooks, testRepoURL, labels, matchedJob.value)
              else forall pb :: pb in playbooks ==> NoMatchIn(pb, labels)
    {
      MatchIsFirst(SetupOf(), labels);
      for p := 0 to |playbooks|
        invariant NoCandidate(Candidates(playbooks[..p]), labels)
      {
        var pb := playbooks[p];
        if pb.manifest.None? {
          PassPlaybook(playbooks, p, labels);
          continue;
        }
        var m := pb.manifest.value;
        var matches := MatchNodeGroups(m, labels);
        if |matches| > 0 {
          var group := matches[0];
          TakePlaybook(SetupOf(), p, labels);
          var repoURL := m.repo;
          if repoURL == "" {
            repoURL := testRepoURL;
            if repoURL == "" {
              repoURL := DEFAULT_REPO_URL;
            }
          }
          return Some(Job("job-" + pb.id + "-" + group.name, repoURL, m.branch, "", m.playbook, group.extraVars));
        }
        PassPlaybook(playbooks, p, labels);
      }
      assert playbooks[..|playbooks|] == playbooks;
      ManifestJobIsFirst(SetupOf(), labels);
      return None;
    }

    /** Third locked read of handleSync: both loops, under the read lock. */
    method DecideJob(labels: Labels) returns (p: SyncProgress)
      ensures p == Answered(Decide(SetupOf(), currentJob, labels))
      ensures RightReply(SetupOf(), labels, currentJob, p.response)
    {
      OneRightReply(SetupOf(), labels, currentJob, Decide(SetupOf(), currentJob, labels));
      var matchedJob := MatchPlaybooks(labels);
      if matchedJob.None? && currentJob.jobID != "" {
        var hasManifests := false;
        var i := 0;
        while i < |playbooks|
          invariant 0 <= i <= |playbooks|
          invariant !hasManifests ==> forall j :: 0 <= j < i ==> playbooks[j].manifest.None?
          invariant hasManifests ==> HasManifests(SetupOf())
        {
          if playbooks[i].manifest.Some? {
            hasManifests := true;
            break;
          }
          i := i + 1;
        }
        if !hasManifests {
          matchedJob := Some(currentJob);
        }
      }
      if matchedJob.None? {
        return Answered(NoContent);
      }
      return Answered(JobResponse(matchedJob.value));
    }

    /** The whole handler, when nothing else runs between its sections. */
    method HandleSync(nodeID: string) returns (r: SyncResponse)
      requires Valid()
      ensures r == AtomicSync(SetupOf(), nodeStore.Nodes(), currentJob, nodeID)
      ensures RightAnswer(SetupOf(), nodeStore.Nodes(), currentJob, nodeID, r)
    {
      var p := CheckRegistered(nodeID);
      if !p.Answered? {
        p := ReadLabels(nodeID);
        p := DecideJob(p.labels);
        assert p.response == AtomicSync(SetupOf(), nodeStore.Nodes(), currentJob, nodeID);
      }
      r := p.response;
      AtomicSyncIsRight(SetupOf(), nodeStore.Nodes(), currentJob, nodeID);
    }
  }
}
