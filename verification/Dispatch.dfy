/**
 cmd/othela/server.go: how a sync request is answered. The dispatcher is stated over the flat list of
 (playbook, group) candidates; Othela.Server proves its nested loops against it.
 */
module Dispatch {
  import opened Basics
  import opened Types
  import opened Manifests
  import opened Playbooks

  const DEFAULT_REPO_URL := "http://git-server:3000/helvilette/nginx-collection.git"

  /** What is fixed when a server is constructed: its playbooks and HELV_TEST_REPO_URL ("" when unset). */
  datatype Setup = Setup(playbooks: seq<Playbook>, testRepoURL: string)

  datatype SyncResponse = Forbidden | NoContent | JobResponse(job: Job)

  // ---------------------------------------------------------------- candidates

  datatype Candidate = Candidate(playbookID: string, manifest: Manifest, group: NodeGroup)

  function CandidatesIn(pb: Playbook): seq<Candidate> {
    match pb.manifest
    case None => []
    case Some(m) => seq(|m.nodeGroups|, i requires 0 <= i < |m.nodeGroups| => Candidate(pb.id, m, m.nodeGroups[i]))
  }

  /** All groups of all playbooks that have a manifest, in the order the loops visit them. */
  function Candidates(playbooks: seq<Playbook>): seq<Candidate> {
    if playbooks == [] then []
    else Candidates(playbooks[..|playbooks| - 1]) + CandidatesIn(playbooks[|playbooks| - 1])
  }

  lemma {:induction false} CandidatesPrefix(playbooks: seq<Playbook>, p: nat)
    requires p <= |playbooks|
    ensures Candidates(playbooks[..p]) <= Candidates(playbooks)
  {
    if p == |playbooks| {
      assert playbooks[..p] == playbooks;
    } else {
      var front := playbooks[..|playbooks| - 1];
      assert front[..p] == playbooks[..p];
      CandidatesPrefix(front, p);
    }
  }

  lemma {:induction false} CandidateOrigin(playbooks: seq<Playbook>, c: Candidate)
    requires c in Candidates(playbooks)
    ensures exists pb :: pb in playbooks && pb.id == c.playbookID && pb.manifest == Some(c.manifest) && c.group in c.manifest.nodeGroups
  {
    var last := playbooks[|playbooks| - 1];
    if c in CandidatesIn(last) {
      assert last in playbooks;
    } else {
      CandidateOrigin(playbooks[..|playbooks| - 1], c);
    }
  }

  function Selector(c: Candidate): map<string, string> {
    c.group.nodeSelector
  }

  /** `i` is the first candidate that selects `labels`. */
  predicate FirstSelecting(cands: seq<Candidate>, labels: Labels, i: nat) {
    && i < |cands|
    && Selects(Selector(cands[i]), labels)
    && forall j :: 0 <= j < i ==> !Selects(Selector(cands[j]), labels)
  }

  predicate NoCandidate(cands: seq<Candidate>, labels: Labels) {
    forall j :: 0 <= j < |cands| ==> !Selects(Selector(cands[j]), labels)
  }

  // ---------------------------------------------------------------- the decision

  function ManifestJobID(playbookID: string, groupName: string): string {
    "job-" + playbookID + "-" + groupName
  }

  function RepoURL(setup: Setup, m: Manifest): string {
    if m.repo != "" then m.repo
    else if setup.testRepoURL != "" then setup.testRepoURL
    else DEFAULT_REPO_URL
  }

  function JobFor(setup: Setup, c: Candidate): Job {
    Job(jobID := ManifestJobID(c.playbookID, c.group.name),
        repoURL := RepoURL(setup, c.manifest),
        version := c.manifest.branch,
        playbookContent := "",
        playbookPath := c.manifest.playbook,
        extraVars := c.group.extraVars)
  }

  /** The least position from `i` on whose selector picks `labels`, or the length of the list. */
  function FirstIndex(cands: seq<Candidate>, labels: Labels, i: nat): (k: nat)
    requires i <= |cands|
    ensures i <= k <= |cands|
    ensures k < |cands| ==> Selects(Selector(cands[k]), labels)
    ensures forall j :: i <= j < k ==> !Selects(Selector(cands[j]), labels)
    decreases |cands| - i
  {
    if i == |cands| || Selects(Selector(cands[i]), labels) then i else FirstIndex(cands, labels, i + 1)
  }

  function ManifestJob(setup: Setup, labels: Labels): Option<Job> {
    var cands := Candidates(setup.playbooks);
    var k := FirstIndex(cands, labels, 0);
    if k < |cands| then Some(JobFor(setup, cands[k])) else None
  }

  lemma OnlyOneFirst(cands: seq<Candidate>, labels: Labels, j: nat, k: nat)
    requires FirstSelecting(cands, labels, j) && FirstSelecting(cands, labels, k)
    ensures j == k
  {
    assert !(j < k) && !(k < j);
  }

  /** The dispatched job is that of the first selecting candidate; nothing is dispatched when there is none. */
  lemma ManifestJobIsFirst(setup: Setup, labels: Labels)
    ensures forall k: nat :: FirstSelecting(Candidates(setup.playbooks), labels, k) ==>
      ManifestJob(setup, labels) == Some(JobFor(setup, Candidates(setup.playbooks)[k]))
    ensures ManifestJob(setup, labels).Some? ==> exists k: nat :: FirstSelecting(Candidates(setup.playbooks), labels, k)
    ensures ManifestJob(setup, labels).None? <==> NoCandidate(Candidates(setup.playbooks), labels)
  {
    var cands := Candidates(setup.playbooks);
    var first := FirstIndex(cands, labels, 0);
    if first < |cands| {
      assert FirstSelecting(cands, labels, first);
      assert !NoCandidate(cands, labels);
      forall k: nat | FirstSelecting(cands, labels, k)
        ensures k == first
      {
        OnlyOneFirst(cands, labels, k, first);
      }
    }
  }

  predicate HasManifests(setup: Setup) {
    exists pb :: pb in setup.playbooks && pb.manifest.Some?
  }

  /** The job of the first match; the fallback job only when no playbook carries a manifest. */
  function Decide(setup: Setup, currentJob: Job, labels: Labels): SyncResponse {
    var matched := ManifestJob(setup, labels);
    if matched.Some? then JobResponse(matched.value)
    else if currentJob.jobID != "" && !HasManifests(setup) then JobResponse(currentJob)
    else NoContent
  }

  lemma {:induction false} CandidatesNeedManifests(playbooks: seq<Playbook>)
    requires forall pb :: pb in playbooks ==> pb.manifest.None?
    ensures Candidates(playbooks) == []
  {
    if playbooks != [] {
      CandidatesNeedManifests(playbooks[..|playbooks| - 1]);
      assert playbooks[|playbooks| - 1] in playbooks;
    }
  }

  /**
   The two modes: with a manifest around the fallback job plays no part, without one the labels play no part.
   In both modes a job that is handed out carries a non-empty ID.
   */
  lemma DecideModes(setup: Setup, job1: Job, labels1: Labels, job2: Job, labels2: Labels)
    ensures HasManifests(setup) ==> Decide(setup, job1, labels1) == Decide(setup, job2, labels1)
    ensures !HasManifests(setup) ==> Decide(setup, job1, labels1) == Decide(setup, job1, labels2)
    ensures !HasManifests(setup) ==>
      Decide(setup, job1, labels1) == if job1.jobID == "" then NoContent else JobResponse(job1)
    ensures Decide(setup, job1, labels1).JobResponse? ==> Decide(setup, job1, labels1).job.jobID != ""
  {
    if !HasManifests(setup) {
      CandidatesNeedManifests(setup.playbooks);
    }
  }

  // ---------------------------------------------------------------- the answer, in the manifests' own terms

  /** A playbook without a matching group leaves the search where it was. */
  lemma PassPlaybook(playbooks: seq<Playbook>, p: nat, labels: Labels)
    requires p < |playbooks|
    requires NoCandidate(Candidates(playbooks[..p]), labels)
    requires playbooks[p].manifest.Some? ==> Matching(playbooks[p].manifest.value.nodeGroups, labels) == []
    ensures NoCandidate(Candidates(playbooks[..p + 1]), labels)
  {
    assert playbooks[..p + 1][..p] == playbooks[..p];
    if playbooks[p].manifest.Some? {
      var groups := playbooks[p].manifest.value.nodeGroups;
      NoGroupOrFirst(groups, labels);
      if k: nat :| FirstGroup(groups, labels, k) {
        MatchingHead(groups, labels, k);
      }
    }
  }

  /** The head of the first non-empty match list belongs to the first selecting candidate. */
  lemma TakePlaybook(setup: Setup, p: nat, labels: Labels)
    requires p < |setup.playbooks| && setup.playbooks[p].manifest.Some?
    requires NoCandidate(Candidates(setup.playbooks[..p]), labels)
    requires Matching(setup.playbooks[p].manifest.value.nodeGroups, labels) != []
    ensures
      var pb := setup.playbooks[p];
      var m := pb.manifest.value;
      ManifestJob(setup, labels) == Some(JobFor(setup, Candidate(pb.id, m, Matching(m.nodeGroups, labels)[0])))
  {
    var pb := setup.playbooks[p];
    var groups := pb.manifest.value.nodeGroups;
    var k := HeadOfMatches(groups, labels);
    var before := Candidates(setup.playbooks[..p]);
    assert setup.playbooks[..p + 1][..p] == setup.playbooks[..p];
    CandidatesPrefix(setup.playbooks, p + 1);
    FirstInPlaybook(pb, labels, k);
    ConcatFirst(before, CandidatesIn(pb), Candidates(setup.playbooks), labels, k);
    ManifestJobIsFirst(setup, labels);
  }

  lemma HeadOfMatches(groups: seq<NodeGroup>, labels: Labels) returns (k: nat)
    requires Matching(groups, labels) != []
    ensures FirstGroup(groups, labels, k) && Matching(groups, labels)[0] == groups[k]
  {
    NoGroupOrFirst(groups, labels);
    if NoGroup(groups, labels) {
      NoMatching(groups, labels);
      assert false;
    }
    k :| FirstGroup(groups, labels, k);
    MatchingHead(groups, labels, k);
  }

  lemma FirstInPlaybook(pb: Playbook, labels: Labels, k: nat)
    requires pb.manifest.Some? && FirstGroup(pb.manifest.value.nodeGroups, labels, k)
    ensures FirstSelecting(CandidatesIn(pb), labels, k)
    ensures CandidatesIn(pb)[k] == Candidate(pb.id, pb.manifest.value, pb.manifest.value.nodeGroups[k])
  {
  }

  lemma ConcatFirst(before: seq<Candidate>, here: seq<Candidate>, all: seq<Candidate>, labels: Labels, k: nat)
    requires before + here <= all
    requires NoCandidate(before, labels) && FirstSelecting(here, labels, k)
    ensures FirstSelecting(all, labels, |before| + k) && all[|before| + k] == here[k]
  {
    assert forall j :: 0 <= j < |before| + |here| ==> all[j] == (before + here)[j];
  }

  /** Playbook `p` is the first with a group that selects `labels`, and `k` is its first such group. */
  predicate FirstMatch(playbooks: seq<Playbook>, labels: Labels, p: nat, k: nat) {
    && p < |playbooks| && playbooks[p].manifest.Some?
    && FirstGroup(playbooks[p].manifest.value.nodeGroups, labels, k)
    && forall q :: 0 <= q < p ==> NoMatchIn(playbooks[q], labels)
  }

  predicate NoMatchIn(pb: Playbook, labels: Labels) {
    pb.manifest.Some? ==> NoGroup(pb.manifest.value.nodeGroups, labels)
  }

  /** `job` is the work that group `k` of `pb` asks for. */
  predicate AsksFor(pb: Playbook, k: nat, testRepoURL: string, job: Job)
    requires pb.manifest.Some? && k < |pb.manifest.value.nodeGroups|
  {
    var m := pb.manifest.value;
    && job.jobID == "job-" + pb.id + "-" + m.nodeGroups[k].name
    && job.repoURL == (if m.repo != "" then m.repo else if testRepoURL != "" then testRepoURL
                       else "http://git-server:3000/helvilette/nginx-collection.git")
    && job.version == m.branch
    && job.playbookContent == ""
    && job.playbookPath == m.playbook
    && job.extraVars == m.nodeGroups[k].extraVars
  }

  ghost predicate JobOfFirstMatch(playbooks: seq<Playbook>, testRepoURL: string, labels: Labels, job: Job) {
    exists p: nat, k: nat :: FirstMatch(playbooks, labels, p, k) && AsksFor(playbooks[p], k, testRepoURL, job)
  }

  /** The search over playbooks and their groups, from playbook `p` on. */
  lemma {:induction false} SearchPlaybooks(setup: Setup, labels: Labels, p: nat)
    requires p <= |setup.playbooks|
    requires NoCandidate(Candidates(setup.playbooks[..p]), labels)
    requires forall q :: 0 <= q < p ==> NoMatchIn(setup.playbooks[q], labels)
    ensures ManifestJob(setup, labels).Some? ==>
      JobOfFirstMatch(setup.playbooks, setup.testRepoURL, labels, ManifestJob(setup, labels).value)
    ensures ManifestJob(setup, labels).None? ==> forall pb :: pb in setup.playbooks ==> NoMatchIn(pb, labels)
    decreases |setup.playbooks| - p
  {
    if p == |setup.playbooks| {
      assert setup.playbooks[..p] == setup.playbooks;
      ManifestJobIsFirst(setup, labels);
    } else {
      var pb := setup.playbooks[p];
      if pb.manifest.Some? && Matching(pb.manifest.value.nodeGroups, labels) != [] {
        FirstMatchFound(setup, labels, p);
      } else {
        PassPlaybook(setup.playbooks, p, labels);
        NothingMatchesIn(pb, labels);
        SearchPlaybooks(setup, labels, p + 1);
      }
    }
  }

  lemma FirstMatchFound(setup: Setup, labels: Labels, p: nat)
    requires p < |setup.playbooks| && setup.playbooks[p].manifest.Some?
    requires NoCandidate(Candidates(setup.playbooks[..p]), labels)
    requires forall q :: 0 <= q < p ==> NoMatchIn(setup.playbooks[q], labels)
    requires Matching(setup.playbooks[p].manifest.value.nodeGroups, labels) != []
    ensures ManifestJob(setup, labels).Some?
    ensures JobOfFirstMatch(setup.playbooks, setup.testRepoURL, labels, ManifestJob(setup, labels).value)
  {
    TakePlaybook(setup, p, labels);
    var k := HeadOfMatches(setup.playbooks[p].manifest.value.nodeGroups, labels);
    assert FirstMatch(setup.playbooks, labels, p, k);
    assert AsksFor(setup.playbooks[p], k, setup.testRepoURL, ManifestJob(setup, labels).value);
  }

  lemma NothingMatchesIn(pb: Playbook, labels: Labels)
    requires pb.manifest.Some? ==> Matching(pb.manifest.value.nodeGroups, labels) == []
    ensures NoMatchIn(pb, labels)
  {
    if pb.manifest.Some? {
      NoGroupOrFirst(pb.manifest.value.nodeGroups, labels);
      if k: nat :| FirstGroup(pb.manifest.value.nodeGroups, labels, k) {
        MatchingHead(pb.manifest.value.nodeGroups, labels, k);
      }
    }
  }

  /** There is one first match at most. */
  lemma FirstMatchUnique(playbooks: seq<Playbook>, labels: Labels, p: nat, k: nat, p': nat, k': nat)
    requires FirstMatch(playbooks, labels, p, k) && FirstMatch(playbooks, labels, p', k')
    ensures p == p' && k == k'
  {
    assert !NoMatchIn(playbooks[p], labels) && !NoMatchIn(playbooks[p'], labels);
  }

  /** What is matched is what the first match asks for. */
  lemma MatchIsFirst(setup: Setup, labels: Labels)
    ensures
      if ManifestJob(setup, labels).Some?
      then JobOfFirstMatch(setup.playbooks, setup.testRepoURL, labels, ManifestJob(setup, labels).value)
      else forall pb :: pb in setup.playbooks ==> NoMatchIn(pb, labels)
  {
    assert setup.playbooks[..0] == [];
    SearchPlaybooks(setup, labels, 0);
  }

  /** The manifest job is the one that the first matching group of the first matching playbook asks for. */
  lemma ManifestJobIff(setup: Setup, labels: Labels, job: Job)
    ensures ManifestJob(setup, labels) == Some(job) <==> JobOfFirstMatch(setup.playbooks, setup.testRepoURL, labels, job)
    ensures ManifestJob(setup, labels).None? <==> forall pb :: pb in setup.playbooks ==> NoMatchIn(pb, labels)
  {
    MatchIsFirst(setup, labels);
    if p: nat, k: nat :| FirstMatch(setup.playbooks, labels, p, k) && AsksFor(setup.playbooks[p], k, setup.testRepoURL, job) {
      assert setup.playbooks[p] in setup.playbooks && !NoMatchIn(setup.playbooks[p], labels);
      var found := ManifestJob(setup, labels).value;
      var p': nat, k': nat :| FirstMatch(setup.playbooks, labels, p', k')
                              && AsksFor(setup.playbooks[p'], k', setup.testRepoURL, found);
      FirstMatchUnique(setup.playbooks, labels, p, k, p', k');
    }
    if ManifestJob(setup, labels).Some? {
      var found := ManifestJob(setup, labels).value;
      var p: nat, k: nat :| FirstMatch(setup.playbooks, labels, p, k) && AsksFor(setup.playbooks[p], k, setup.testRepoURL, found);
      assert setup.playbooks[p] in setup.playbooks && !NoMatchIn(setup.playbooks[p], labels);
    }
  }

  /**
   What a registered node with these labels must be answered: the job of the first match; without any manifest the
   fallback job if it is named; and otherwise no content.
   */
  ghost predicate RightReply(setup: Setup, labels: Labels, currentJob: Job, r: SyncResponse) {
    var someManifest := exists pb :: pb in setup.playbooks && pb.manifest.Some?;
    match r
    case Forbidden => false
    case JobResponse(job) =>
      if someManifest then JobOfFirstMatch(setup.playbooks, setup.testRepoURL, labels, job)
      else currentJob.jobID != "" && job == currentJob
    case NoContent =>
      if someManifest then forall pb :: pb in setup.playbooks ==> NoMatchIn(pb, labels)
      else currentJob.jobID == ""
  }

  /** What a sync request of node `n` must be answered. */
  ghost predicate RightAnswer(setup: Setup, nodes: map<string, Labels>, currentJob: Job, n: string, r: SyncResponse) {
    if n in nodes then RightReply(setup, nodes[n], currentJob, r) else r == Forbidden
  }

  lemma OneReplyWithManifests(setup: Setup, labels: Labels, currentJob: Job, r: SyncResponse)
    requires HasManifests(setup)
    ensures RightReply(setup, labels, currentJob, r) <==> r == Decide(setup, currentJob, labels)
  {
    ManifestJobIff(setup, labels, if r.JobResponse? then r.job else NO_JOB);
  }

  lemma OneReplyWithoutManifests(setup: Setup, labels: Labels, currentJob: Job, r: SyncResponse)
    requires !HasManifests(setup)
    ensures RightReply(setup, labels, currentJob, r) <==> r == Decide(setup, currentJob, labels)
  {
    CandidatesNeedManifests(setup.playbooks);
  }

  /** Every label set has one right reply, and Decide gives it. */
  lemma OneRightReply(setup: Setup, labels: Labels, currentJob: Job, r: SyncResponse)
    ensures RightReply(setup, labels, currentJob, r) <==> r == Decide(setup, currentJob, labels)
  {
    if HasManifests(setup) {
      OneReplyWithManifests(setup, labels, currentJob, r);
    } else {
      OneReplyWithoutManifests(setup, labels, currentJob, r);
    }
  }

  /** Every request has one right answer, and the atomic sync gives it. */
  lemma OneRightAnswer(setup: Setup, nodes: map<string, Labels>, currentJob: Job, n: string, r: SyncResponse)
    ensures RightAnswer(setup, nodes, currentJob, n, r) <==> r == AtomicSync(setup, nodes, currentJob, n)
  {
    if n in nodes {
      OneRightReply(setup, nodes[n], currentJob, r);
    }
  }

  lemma AtomicSyncIsRight(setup: Setup, nodes: map<string, Labels>, currentJob: Job, n: string)
    ensures RightAnswer(setup, nodes, currentJob, n, AtomicSync(setup, nodes, currentJob, n))
  {
    OneRightAnswer(setup, nodes, currentJob, n, AtomicSync(setup, nodes, currentJob, n));
  }

  // ---------------------------------------------------------------- sync, at one instant and in pieces

  /** The answer of a sync request that reads everything at once. */
  function AtomicSync(setup: Setup, nodes: map<string, Labels>, currentJob: Job, n: string): SyncResponse {
    if n !in nodes then Forbidden else Decide(setup, currentJob, nodes[n])
  }

  /**
   The whole answer, read off the manifests: a registered node gets the job of the first selecting candidate, or
   else, only when no playbook has a manifest, the fallback job if it has an ID; everything else is no content.
   */
  lemma SyncAnswer(setup: Setup, nodes: map<string, Labels>, currentJob: Job, n: string, job: Job)
    ensures AtomicSync(setup, nodes, currentJob, n) == Forbidden <==> n !in nodes
    ensures AtomicSync(setup, nodes, currentJob, n) == JobResponse(job) <==>
      && n in nodes
      && ((exists i: nat :: FirstSelecting(Candidates(setup.playbooks), nodes[n], i)
                            && job == JobFor(setup, Candidates(setup.playbooks)[i]))
          || (!HasManifests(setup) && currentJob.jobID != "" && job == currentJob))
  {
    if n in nodes {
      ManifestJobIsFirst(setup, nodes[n]);
      if !HasManifests(setup) {
        CandidatesNeedManifests(setup.playbooks);
      } else if ManifestJob(setup, nodes[n]).Some? {
        var i: nat :| FirstSelecting(Candidates(setup.playbooks), nodes[n], i);
      }
    }
  }

  /** Where a request stands between the three separately locked reads of handleSync. */
  datatype SyncProgress =
    | Arrived
    | Checked
    | Labelled(labels: Labels)
    | Answered(response: SyncResponse)

  /** The next locked section: IsRegistered, then GetLabels, then the read-locked decision. */
  function SyncStep(setup: Setup, nodes: map<string, Labels>, currentJob: Job, n: string, p: SyncProgress): SyncProgress {
    match p
    case Arrived => if n in nodes then Checked else Answered(Forbidden)
    case Checked => Labelled(if n in nodes then nodes[n] else map[])
    case Labelled(labels) => Answered(Decide(setup, currentJob, labels))
    case Answered(_) => p
  }

  // ---------------------------------------------------------------- which groups are ever dispatched

  /** Some label set is dispatched to candidate `i`. */
  ghost predicate Live(cands: seq<Candidate>, i: nat) {
    exists labels: Labels :: FirstSelecting(cands, labels, i)
  }

  /** A condition on the manifests alone: no earlier non-empty selector is literally contained in this one. */
  predicate Unshadowed(cands: seq<Candidate>, i: nat) {
    && i < |cands|
    && Selector(cands[i]) != map[]
    && forall j :: 0 <= j < i ==> Selector(cands[j]) == map[] || !Submap(Selector(cands[j]), Selector(cands[i]))
  }

  lemma {:induction false} LengthBound(values: set<string>) returns (bound: nat)
    ensures forall v :: v in values ==> |v| <= bound
  {
    if values == {} {
      bound := 0;
    } else {
      var v :| v in values;
      bound := LengthBound(values - {v});
      bound := if bound < |v| then |v| else bound;
      assert forall w :: w in values ==> w == v || w in values - {v};
    }
  }

  /** Labels with all of `own` that no selector picks but those contained in `own`: elsewhere their values are not mentioned. */
  lemma LabelsExtending(cands: seq<Candidate>, own: Labels) returns (labels: Labels)
    ensures Submap(own, labels)
    ensures forall j :: 0 <= j < |cands| && Selects(Selector(cands[j]), labels) ==> Submap(Selector(cands[j]), own)
  {
    var values := set j, k | 0 <= j < |cands| && k in Selector(cands[j]) :: Selector(cands[j])[k];
    var bound := LengthBound(values);
    var strange := seq(bound + 1, _ => 'x');
    var others := set j, k | 0 <= j < |cands| && k in Selector(cands[j]) && k !in own :: k;
    labels := own + map k | k in others :: strange;
    forall j | 0 <= j < |cands| && Selects(Selector(cands[j]), labels)
      ensures Submap(Selector(cands[j]), own)
    {
      forall k | k in Selector(cands[j])
        ensures k in own && own[k] == Selector(cands[j])[k]
      {
        assert Selector(cands[j])[k] in values;
        StrangeIsRejected(own, others, strange, k, Selector(cands[j])[k]);
      }
    }
  }

  /** A value equal to the label read is not longer than every mentioned one, so the key is one of `own`. */
  lemma StrangeIsRejected(own: Labels, others: set<string>, strange: string, k: string, value: string)
    requires k in own || k in others
    requires |value| < |strange| && Lookup(own + map x | x in others :: strange, k) == value
    requires forall x :: x in others ==> x !in own
    ensures k in own && own[k] == value
  {
  }

  /** The labels that reach an unshadowed candidate first. */
  lemma RejectingLabels(cands: seq<Candidate>, i: nat) returns (labels: Labels)
    requires Unshadowed(cands, i)
    ensures FirstSelecting(cands, labels, i)
  {
    labels := LabelsExtending(cands, Selector(cands[i]));
  }

  lemma NotContained(small: map<string, string>, big: map<string, string>, labels: Labels)
    requires small != map[] && !Selects(small, labels) && Selects(big, labels)
    ensures !Submap(small, big)
  {
  }

  /** A candidate is dispatched for some labels exactly when no earlier selector is contained in its own. */
  lemma LiveIffUnshadowed(cands: seq<Candidate>, i: nat)
    ensures Live(cands, i) <==> Unshadowed(cands, i)
  {
    if Unshadowed(cands, i) {
      var labels := RejectingLabels(cands, i);
    }
    if labels: Labels :| FirstSelecting(cands, labels, i) {
      forall j | 0 <= j < i && Selector(cands[j]) != map[]
        ensures !Submap(Selector(cands[j]), Selector(cands[i]))
      {
        NotContained(Selector(cands[j]), Selector(cands[i]), labels);
      }
    }
  }

  // ---------------------------------------------------------------- job identifiers

  /** With IDs of equal length a job ID gives back both parts, whatever the group name contains. */
  lemma JobIDDecodes(id1: string, name1: string, id2: string, name2: string)
    requires |id1| == |id2|
    ensures ManifestJobID(id1, name1) == ManifestJobID(id2, name2) <==> id1 == id2 && name1 == name2
  {
    var a, b := ManifestJobID(id1, name1), ManifestJobID(id2, name2);
    assert a[4..4 + |id1|] == id1 && b[4..4 + |id2|] == id2;
    assert a[5 + |id1|..] == name1 && b[5 + |id2|..] == name2;
  }

  /** A fallback ID is "job-" and a dash-free text (a playbook ID or a Unix time), so it is never a manifest job's. */
  lemma FallbackIDDiffers(id: string, name: string, text: string)
    requires '-' !in text
    ensures ManifestJobID(id, name) != "job-" + text
  {
    assert ManifestJobID(id, name)[4..][|id|] == '-';
    assert ("job-" + text)[4..] == text;
  }

  /** Two handed-out jobs with the same ID are the same job. */
  ghost predicate IDsIdentifyJobs(setup: Setup) {
    forall l1: Labels, l2: Labels ::
      var j1, j2 := ManifestJob(setup, l1), ManifestJob(setup, l2);
      j1.Some? && j2.Some? && j1.value.jobID == j2.value.jobID ==> j1 == j2
  }

  /** A condition on the manifests alone: dispatchable groups that share a job ID ask for the same job. */
  ghost predicate SameIDSameJob(setup: Setup) {
    var cands := Candidates(setup.playbooks);
    forall i: nat, k: nat ::
      Unshadowed(cands, i) && Unshadowed(cands, k) && JobFor(setup, cands[i]).jobID == JobFor(setup, cands[k]).jobID
      ==> JobFor(setup, cands[i]) == JobFor(setup, cands[k])
  }

  lemma JobComesFromLive(setup: Setup, labels: Labels) returns (i: nat)
    requires ManifestJob(setup, labels).Some?
    ensures FirstSelecting(Candidates(setup.playbooks), labels, i)
    ensures Unshadowed(Candidates(setup.playbooks), i)
    ensures ManifestJob(setup, labels) == Some(JobFor(setup, Candidates(setup.playbooks)[i]))
  {
    i := FirstIndex(Candidates(setup.playbooks), labels, 0);
    LiveIffUnshadowed(Candidates(setup.playbooks), i);
  }

  /** Group names may repeat, so IDs need not identify jobs; this is exactly when they do. */
  lemma IDsIdentifyJobsIff(setup: Setup)
    ensures IDsIdentifyJobs(setup) <==> SameIDSameJob(setup)
  {
    var cands := Candidates(setup.playbooks);
    if IDsIdentifyJobs(setup) {
      forall i: nat, k: nat | Unshadowed(cands, i) && Unshadowed(cands, k)
                              && JobFor(setup, cands[i]).jobID == JobFor(setup, cands[k]).jobID
        ensures JobFor(setup, cands[i]) == JobFor(setup, cands[k])
      {
        var l1 := RejectingLabels(cands, i);
        var l2 := RejectingLabels(cands, k);
        ManifestJobIsFirst(setup, l1);
        ManifestJobIsFirst(setup, l2);
      }
    }
    if SameIDSameJob(setup) {
      forall l1: Labels, l2: Labels | ManifestJob(setup, l1).Some? && ManifestJob(setup, l2).Some?
                                      && ManifestJob(setup, l1).value.jobID == ManifestJob(setup, l2).value.jobID
        ensures ManifestJob(setup, l1) == ManifestJob(setup, l2)
      {
        var i := JobComesFromLive(setup, l1);
        var k := JobComesFromLive(setup, l2);
      }
    }
  }

  lemma CandidatesOfOne(pb: Playbook)
    ensures Candidates([pb]) == CandidatesIn(pb)
  {
    assert [pb][..0] == [];
  }

  /** Two groups under one name, neither shadowed, asking for different variables. */
  ghost predicate RepeatsName(m: Manifest) {
    && |m.nodeGroups| == 2
    && m.nodeGroups[0].name == m.nodeGroups[1].name
    && m.nodeGroups[0].nodeSelector != map[] && m.nodeGroups[1].nodeSelector != map[]
    && !Submap(m.nodeGroups[0].nodeSelector, m.nodeGroups[1].nodeSelector)
    && m.nodeGroups[0].extraVars != m.nodeGroups[1].extraVars
  }

  lemma RepeatedNameConfusesJobs(pb: Playbook, url: string)
    requires pb.manifest.Some? && RepeatsName(pb.manifest.value)
    ensures !IDsIdentifyJobs(Setup([pb], url))
  {
    var setup := Setup([pb], url);
    CandidatesOfOne(pb);
    var cands := Candidates(setup.playbooks);
    assert Unshadowed(cands, 0) && Unshadowed(cands, 1);
    assert JobFor(setup, cands[0]) != JobFor(setup, cands[1]);
    IDsIdentifyJobsIff(setup);
  }

  /** Validation lets such a manifest through. */
  lemma ValidManifestMayRepeatName() returns (m: Manifest)
    ensures Dispatchable(m) && RepeatsName(m)
  {
    var g0 := NodeGroup("web", map["zone" := "a"], map["port" := "80"]);
    var g1 := NodeGroup("web", map["zone" := "b"], map[]);
    m := Manifest(SUPPORTED_API_VERSION, SUPPORTED_KIND, "fleet", "repo.git", "main", "playbook.yml", [g0, g1]);
    assert "zone" in g0.nodeSelector && g0.nodeSelector["zone"] == ['a'] && g1.nodeSelector["zone"] == ['b'];
    assert "port" in g0.extraVars;
  }

  /** Validation also lets through a manifest with a group that no labels are ever dispatched to. */
  lemma ValidManifestMayHoldDeadGroup(pb: Playbook) returns (m: Manifest)
    ensures Dispatchable(m) && |m.nodeGroups| == 2
    ensures pb.manifest == Some(m) ==> !Live(Candidates([pb]), 1)
  {
    var g0 := NodeGroup("web", map["role" := "web"], map[]);
    var g1 := NodeGroup("web-b", map["role" := "web", "zone" := "b"], map[]);
    m := Manifest(SUPPORTED_API_VERSION, SUPPORTED_KIND, "fleet", "repo.git", "main", "playbook.yml", [g0, g1]);
    CandidatesOfOne(pb);
    LiveIffUnshadowed(Candidates([pb]), 1);
    assert "role" in g0.nodeSelector && "role" in g1.nodeSelector;
    if pb.manifest == Some(m) {
      assert Submap(Selector(Candidates([pb])[0]), Selector(Candidates([pb])[1]));
    }
  }

  // ---------------------------------------------------------------- when labels matter

  /** No group selects anything, so labels never bring a job. */
  predicate NothingSelects(setup: Setup) {
    forall c :: c in Candidates(setup.playbooks) ==> Selector(c) == map[]
  }

  /** Labels that no candidate selects. */
  lemma UnselectedLabels(cands: seq<Candidate>) returns (labels: Labels)
    ensures NoCandidate(cands, labels)
  {
    labels := LabelsExtending(cands, map[]);
    forall j | 0 <= j < |cands| && Selector(cands[j]) != map[]
      ensures !Submap(Selector(cands[j]), map[])
    {
      var k :| k in Selector(cands[j]);
    }
  }

  /** Two label sets with different jobs exist as soon as one selector is not empty. */
  lemma LabelsThatDiffer(setup: Setup) returns (labels1: Labels, labels2: Labels)
    requires !NothingSelects(setup)
    ensures HasManifests(setup)
    ensures ManifestJob(setup, labels1) != ManifestJob(setup, labels2)
  {
    var cands := Candidates(setup.playbooks);
    var i :| 0 <= i < |cands| && Selector(cands[i]) != map[];
    CandidateOrigin(setup.playbooks, cands[i]);
    labels1 := UnselectedLabels(cands);
    labels2 := Selector(cands[i]);
    assert Selects(Selector(cands[i]), labels2);
    ManifestJobIsFirst(setup, labels1);
    ManifestJobIsFirst(setup, labels2);
  }

  /** Registered nodes get the same manifest job whatever their labels exactly when no selector says anything. */
  lemma LabelsMatterIffSelected(setup: Setup)
    ensures (forall l1: Labels, l2: Labels :: ManifestJob(setup, l1) == ManifestJob(setup, l2)) <==> NothingSelects(setup)
  {
    if NothingSelects(setup) {
      forall l: Labels
        ensures ManifestJob(setup, l).None?
      {
        ManifestJobIsFirst(setup, l);
      }
    } else {
      var l1, l2 := LabelsThatDiffer(setup);
    }
  }

  /** Validated manifests always select something. */
  lemma {:induction false} ValidManifestsSelect(playbooks: seq<Playbook>, url: string)
    requires forall pb :: pb in playbooks && pb.manifest.Some? ==> Dispatchable(pb.manifest.value)
    ensures NothingSelects(Setup(playbooks, url)) <==> !HasManifests(Setup(playbooks, url))
  {
    if pb :| pb in playbooks && pb.manifest.Some? {
      var p :| 0 <= p < |playbooks| && playbooks[p] == pb;
      var c := Candidate(pb.id, pb.manifest.value, pb.manifest.value.nodeGroups[0]);
      assert CandidatesIn(pb)[0] == c;
      assert playbooks[..p + 1][..p] == playbooks[..p];
      assert c in Candidates(playbooks[..p + 1]);
      CandidatesPrefix(playbooks, p + 1);
      assert c.group in pb.manifest.value.nodeGroups;
      assert Selector(c) != map[];
    } else {
      CandidatesNeedManifests(playbooks);
    }
  }

  // ---------------------------------------------------------------- jobs of scanned playbooks

  lemma ScannedCandidate(hash: string -> Digest, baseDir: string, entries: seq<Entry>, c: Candidate)
    requires c in Candidates(Discovered(hash, baseDir, entries))
    ensures Dispatchable(c.manifest) && c.group in c.manifest.nodeGroups
  {
    CandidateOrigin(Discovered(hash, baseDir, entries), c);
  }

  /**
   A job dispatched from scanned playbooks takes its repository and path from the validated manifest of a group
   that selects the labels; both are set.
   */
  lemma ScannedJobsAreComplete(hash: string -> Digest, baseDir: string, entries: seq<Entry>, url: string, labels: Labels)
    returns (c: Candidate)
    requires ManifestJob(Setup(Discovered(hash, baseDir, entries), url), labels).Some?
    ensures c in Candidates(Discovered(hash, baseDir, entries)) && Selects(Selector(c), labels)
    ensures Dispatchable(c.manifest) && c.group in c.manifest.nodeGroups
    ensures
      var job := ManifestJob(Setup(Discovered(hash, baseDir, entries), url), labels).value;
      && job == JobFor(Setup(Discovered(hash, baseDir, entries), url), c)
      && job.repoURL == c.manifest.repo != "" && job.playbookPath == c.manifest.playbook != ""
  {
    var setup := Setup(Discovered(hash, baseDir, entries), url);
    var i := JobComesFromLive(setup, labels);
    c := Candidates(setup.playbooks)[i];
    ScannedCandidate(hash, baseDir, entries, c);
  }

  /** For scanned playbooks HELV_TEST_REPO_URL has no influence on manifest jobs. */
  lemma TestURLIsUnused(hash: string -> Digest, baseDir: string, entries: seq<Entry>, url1: string, url2: string, labels: Labels)
    ensures ManifestJob(Setup(Discovered(hash, baseDir, entries), url1), labels)
         == ManifestJob(Setup(Discovered(hash, baseDir, entries), url2), labels)
  {
    var cands := Candidates(Discovered(hash, baseDir, entries));
    var k := FirstIndex(cands, labels, 0);
    if k < |cands| {
      ScannedCandidate(hash, baseDir, entries, cands[k]);
    }
  }

  /** Among scanned playbooks a job ID stands for a digest prefix of the directory's name and a group name. */
  lemma ScannedJobIDs(hash: string -> Digest, baseDir: string, entries: seq<Entry>, c: Candidate, d: Candidate,
                      pb: Playbook, qb: Playbook)
    requires c in Candidates(Discovered(hash, baseDir, entries)) && d in Candidates(Discovered(hash, baseDir, entries))
    requires pb in Discovered(hash, baseDir, entries) && pb.id == c.playbookID
    requires qb in Discovered(hash, baseDir, entries) && qb.id == d.playbookID
    ensures ManifestJobID(c.playbookID, c.group.name) == ManifestJobID(d.playbookID, d.group.name)
      <==> hash(pb.name)[..8] == hash(qb.name)[..8] && c.group.name == d.group.name
  {
    SameIDIffSamePrefix(hash, pb.name, qb.name);
    JobIDDecodes(c.playbookID, c.group.name, d.playbookID, d.group.name);
  }
}
