/** The data exchanged between Othela and its agents, and the manifest schema. */
module Types {
  import opened Basics

  /** pkg/types/types.go: the work Othela sends to an agent. */
  datatype Job = Job(
    jobID: string,
    repoURL: string,
    version: string,
    playbookContent: string,
    playbookPath: string,
    extraVars: map<string, string>)

  /** Go's zero Job: what a server without a fallback job holds. */
  const NO_JOB := Job("", "", "", "", "", map[])

  datatype Status = Success | Failed

  /** pkg/types/types.go: what an agent sends back after one execution. */
  datatype Report = Report(nodeID: string, jobID: string, status: Status, taskLogs: string)

  /** pkg/manifest/types.go; fields that nothing in the model reads are left out. */
  datatype NodeGroup = NodeGroup(name: string, nodeSelector: map<string, string>, extraVars: map<string, string>)

  datatype Manifest = Manifest(
    apiVersion: string,
    kind: string,
    metadataName: string,
    repo: string,
    branch: string,
    playbook: string,
    nodeGroups: seq<NodeGroup>)

  /** pkg/playbook/types.go */
  datatype Playbook = Playbook(
    id: string,
    name: string,
    path: string,
    fullPath: string,
    modTime: int,
    manifest: Option<Manifest>)

  /** The reports that node `n` sent, in stored order. */
  function ReportsOf(reports: seq<Report>, n: string): seq<Report> {
    if reports == [] then []
    else
      var last := reports[|reports| - 1];
      ReportsOf(reports[..|reports| - 1], n) + (if last.nodeID == n then [last] else [])
  }

  lemma ReportsOfAppend(reports: seq<Report>, r: Report, n: string)
    ensures ReportsOf(reports + [r], n) == ReportsOf(reports, n) + (if r.nodeID == n then [r] else [])
  {
    assert (reports + [r])[..|reports|] == reports;
  }
}
