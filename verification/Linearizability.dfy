/**
 handleSync reads the node store twice and then the read-locked fields, and anything may happen in between.
 This module interleaves any number of sync requests, section by section, with registrations and job changes
 from any client, and shows that every reply is the reply of one atomic sync inside the request.
 */
module Linearizability {
  import opened Basics
  import opened Types
  import opened Manifests
  import opened Playbooks
  import opened Dispatch

  datatype Request = Request(nodeID: string, progress: SyncProgress)

  /** The playbooks are fixed in the Setup; nodes are added or relabelled, never removed. */
  datatype World = World(nodes: map<string, Labels>, currentJob: Job, requests: map<nat, Request>)

  datatype Event =
    | Register(nodeID: string, labels: Labels)
    | SetCurrentJob(job: Job)
    | Arrive(id: nat, nodeID: string)
    | Advance(id: nat)

  /** One event; an event that makes no sense in `w` (a used or an unknown request id) changes nothing. */
  function Next(setup: Setup, w: World, e: Event): World {
    match e
    case Register(n, labels) => w.(nodes := w.nodes[n := labels])
    case SetCurrentJob(job) => w.(currentJob := job)
    case Arrive(id, n) => if id in w.requests then w else w.(requests := w.requests[id := Request(n, Arrived)])
    case Advance(id) =>
      if id !in w.requests then w
      else
        var r := w.requests[id];
        w.(requests := w.requests[id := r.(progress := SyncStep(setup, w.nodes, w.currentJob, r.nodeID, r.progress))])
  }

  /** Each event changes its own part of the world and nothing else. */
  lemma EventEffect(setup: Setup, w: World, e: Event)
    ensures
      var v := Next(setup, w, e);
      && (e.SetCurrentJob? ==> v.currentJob == e.job) && (!e.SetCurrentJob? ==> v.currentJob == w.currentJob)
      && (e.Register? ==> e.nodeID in v.nodes && v.nodes[e.nodeID] == e.labels)
      && (forall n :: !(e.Register? && n == e.nodeID) ==> (n in v.nodes <==> n in w.nodes) && (n in w.nodes ==> v.nodes[n] == w.nodes[n]))
      && (forall id :: id in w.requests ==> id in v.requests && (e != Advance(id) ==> v.requests[id] == w.requests[id]))
      && (e.Arrive? && e.id !in w.requests ==> e.id in v.requests && v.requests[e.id] == Request(e.nodeID, Arrived))
  {
  }

  /** The world after the first `i` events. */
  function At(setup: Setup, w0: World, events: seq<Event>, i: nat): World
    requires i <= |events|
  {
    if i == 0 then w0 else Next(setup, At(setup, w0, events, i - 1), events[i - 1])
  }

  /**
   Event `i` is a section of request `id`, of the stage given, and a sync done atomically just then
   would have got the reply `response`.
   */
  ghost predicate LinearizesAt(setup: Setup, w0: World, events: seq<Event>, id: nat, i: nat,
                               stage: SyncProgress -> bool, response: SyncResponse) {
    && i < |events| && events[i] == Advance(id)
    && var w := At(setup, w0, events, i);
    && id in w.requests && stage(w.requests[id].progress)
    && AtomicSync(setup, w.nodes, w.currentJob, w.requests[id].nodeID) == response
  }

  /** What is known of a request that stands at progress `p` after `i` events. */
  ghost predicate Explained(setup: Setup, w0: World, events: seq<Event>, i: nat, id: nat)
    requires i <= |events|
    requires id in At(setup, w0, events, i).requests
  {
    var w := At(setup, w0, events, i);
    var r := w.requests[id];
    match r.progress
    case Arrived => true
    case Checked => r.nodeID in w.nodes
    case Labelled(labels) =>
      exists k :: 0 <= k < i && ReadAt(setup, w0, events, id, k, labels)
    case Answered(response) =>
      exists k :: 0 <= k < i && LinearizesAt(setup, w0, events, id, k, StageOf(setup, response), response)
  }

  /** Event `k` is the GetLabels section of the request and read `labels` of a registered node. */
  ghost predicate ReadAt(setup: Setup, w0: World, events: seq<Event>, id: nat, k: nat, labels: Labels) {
    && k < |events| && events[k] == Advance(id)
    && var w := At(setup, w0, events, k);
    && id in w.requests && w.requests[id].progress == Checked
    && w.requests[id].nodeID in w.nodes && w.nodes[w.requests[id].nodeID] == labels
  }

  /** The section at which a reply takes effect: which one depends on the reply and on whether manifests exist. */
  function StageOf(setup: Setup, response: SyncResponse): SyncProgress -> bool {
    (p: SyncProgress) =>
      if response.Forbidden? then p.Arrived?
      else if HasManifests(setup) then p.Checked?
      else p.Labelled?
  }

  lemma RequestKeepsNode(setup: Setup, w0: World, events: seq<Event>, k: nat, i: nat, id: nat)
    requires k <= i <= |events| && id in At(setup, w0, events, k).requests
    ensures id in At(setup, w0, events, i).requests
    ensures At(setup, w0, events, i).requests[id].nodeID == At(setup, w0, events, k).requests[id].nodeID
  {
    if k < i {
      RequestKeepsNode(setup, w0, events, k, i - 1, id);
    }
  }

  /** The read-locked section turns the labels read earlier into a reply that some instant explains. */
  lemma DecisionExplained(setup: Setup, w0: World, events: seq<Event>, i: nat, id: nat, k: nat)
    requires i < |events| && events[i] == Advance(id) && k < i
    requires id in At(setup, w0, events, i).requests
    requires At(setup, w0, events, i).requests[id].progress.Labelled?
    requires ReadAt(setup, w0, events, id, k, At(setup, w0, events, i).requests[id].progress.labels)
    requires At(setup, w0, events, i).requests[id].nodeID in At(setup, w0, events, i).nodes
    ensures
      var w := At(setup, w0, events, i);
      var response := Decide(setup, w.currentJob, w.requests[id].progress.labels);
      var at := if HasManifests(setup) then k else i;
      LinearizesAt(setup, w0, events, id, at, StageOf(setup, response), response)
  {
    var w := At(setup, w0, events, i);
    var v := At(setup, w0, events, k);
    var labels := w.requests[id].progress.labels;
    RequestKeepsNode(setup, w0, events, k, i, id);
    DecideModes(setup, w.currentJob, labels, v.currentJob, labels);
    DecideModes(setup, w.currentJob, labels, w.currentJob, w.nodes[w.requests[id].nodeID]);
  }

  lemma NodesOnlyGrow(setup: Setup, w0: World, events: seq<Event>, k: nat, i: nat)
    requires k <= i <= |events|
    ensures At(setup, w0, events, k).nodes.Keys <= At(setup, w0, events, i).nodes.Keys
  {
    if k < i {
      NodesOnlyGrow(setup, w0, events, k, i - 1);
    }
  }

  /** A request that did not move stays explained by the same earlier section. */
  lemma ExplainedLater(setup: Setup, w0: World, events: seq<Event>, i: nat, id: nat)
    requires i < |events| && id in At(setup, w0, events, i).requests && Explained(setup, w0, events, i, id)
    requires events[i] != Advance(id)
    ensures id in At(setup, w0, events, i + 1).requests && Explained(setup, w0, events, i + 1, id)
  {
    NodesOnlyGrow(setup, w0, events, i, i + 1);
    assert At(setup, w0, events, i + 1).requests[id] == At(setup, w0, events, i).requests[id];
  }

  /** The next section of a request is explained by itself or by the label read before it. */
  lemma AdvanceExplained(setup: Setup, w0: World, events: seq<Event>, i: nat, id: nat)
    requires i < |events| && id in At(setup, w0, events, i).requests && Explained(setup, w0, events, i, id)
    requires events[i] == Advance(id)
    ensures id in At(setup, w0, events, i + 1).requests && Explained(setup, w0, events, i + 1, id)
  {
    var w := At(setup, w0, events, i);
    var r := w.requests[id];
    match r.progress {
      case Arrived =>
        assert r.nodeID !in w.nodes ==> LinearizesAt(setup, w0, events, id, i, StageOf(setup, Forbidden), Forbidden);
      case Checked =>
        assert ReadAt(setup, w0, events, id, i, w.nodes[r.nodeID]);
      case Labelled(labels) =>
        var k :| 0 <= k < i && ReadAt(setup, w0, events, id, k, labels);
        RequestKeepsNode(setup, w0, events, k, i, id);
        NodesOnlyGrow(setup, w0, events, k, i);
        DecisionExplained(setup, w0, events, i, id, k);
      case Answered(_) =>
    }
  }

  lemma {:induction false} AlwaysExplained(setup: Setup, w0: World, events: seq<Event>, i: nat, id: nat)
    requires w0.requests == map[]
    requires i <= |events| && id in At(setup, w0, events, i).requests
    ensures Explained(setup, w0, events, i, id)
  {
    if i > 0 && id in At(setup, w0, events, i - 1).requests {
      AlwaysExplained(setup, w0, events, i - 1, id);
      if events[i - 1] == Advance(id) {
        AdvanceExplained(setup, w0, events, i - 1, id);
      } else {
        ExplainedLater(setup, w0, events, i - 1, id);
      }
    }
  }

  /**
   Linearizability of handleSync. Whatever else runs, the reply of a request is what one atomic sync would have
   answered at one of the request's own sections: at IsRegistered for a refusal, at GetLabels when some playbook
   has a manifest, and at the read-locked section otherwise.
   */
  lemma SyncIsLinearizable(setup: Setup, w0: World, events: seq<Event>, id: nat) returns (i: nat)
    requires w0.requests == map[]
    requires id in At(setup, w0, events, |events|).requests
    requires At(setup, w0, events, |events|).requests[id].progress.Answered?
    ensures
      var response := At(setup, w0, events, |events|).requests[id].progress.response;
      LinearizesAt(setup, w0, events, id, i, StageOf(setup, response), response)
  {
    AlwaysExplained(setup, w0, events, |events|, id);
    var response := At(setup, w0, events, |events|).requests[id].progress.response;
    i :| 0 <= i < |events| && LinearizesAt(setup, w0, events, id, i, StageOf(setup, response), response);
  }

  /** In each section that answers, the reply is what one atomic sync would have answered just then. */
  ghost predicate CurrentAt(setup: Setup, w0: World, events: seq<Event>, i: nat, id: nat)
    requires i < |events| && id in At(setup, w0, events, i).requests
  {
    var w := At(setup, w0, events, i);
    var r := w.requests[id];
    var p := SyncStep(setup, w.nodes, w.currentJob, r.nodeID, r.progress);
    p.Answered? && !r.progress.Answered? ==> p.response == AtomicSync(setup, w.nodes, w.currentJob, r.nodeID)
  }

  /** A request past its GetLabels section is that of a node which is registered still. */
  lemma LabelledIsRegistered(setup: Setup, w0: World, events: seq<Event>, i: nat, id: nat)
    requires w0.requests == map[]
    requires i <= |events| && id in At(setup, w0, events, i).requests
    requires At(setup, w0, events, i).requests[id].progress.Labelled?
    ensures At(setup, w0, events, i).requests[id].nodeID in At(setup, w0, events, i).nodes
  {
    AlwaysExplained(setup, w0, events, i, id);
    var k: nat :| k < i && ReadAt(setup, w0, events, id, k, At(setup, w0, events, i).requests[id].progress.labels);
    RequestKeepsNode(setup, w0, events, k, i, id);
    NodesOnlyGrow(setup, w0, events, k, i);
  }

  /**
   The choice of instant matters: a node may be relabelled between GetLabels and the read-locked section. The reply
   decided there is current exactly when no playbook has a manifest, or the labels read earlier and the labels
   stored now bring the same manifest job.
   */
  lemma CurrentIffSameJob(setup: Setup, w0: World, events: seq<Event>, i: nat, id: nat)
    requires w0.requests == map[]
    requires i < |events| && events[i] == Advance(id)
    requires id in At(setup, w0, events, i).requests && At(setup, w0, events, i).requests[id].progress.Labelled?
    ensures
      var w, w' := At(setup, w0, events, i), At(setup, w0, events, i + 1);
      var r := w.requests[id];
      && r.nodeID in w.nodes
      && id in w'.requests && w'.requests[id].progress.Answered?
      && (w'.requests[id].progress.response == AtomicSync(setup, w.nodes, w.currentJob, r.nodeID)
          <==> !HasManifests(setup) || ManifestJob(setup, r.progress.labels) == ManifestJob(setup, w.nodes[r.nodeID]))
  {
    LabelledIsRegistered(setup, w0, events, i, id);
    var w := At(setup, w0, events, i);
    var r := w.requests[id];
    DecideModes(setup, w.currentJob, r.progress.labels, w.currentJob, w.nodes[r.nodeID]);
  }

  /** A node registers, polls, and registers other labels between the second and the third section. */
  function Relabelling(n: string, labels1: Labels, labels2: Labels): seq<Event> {
    [Register(n, labels1), Arrive(0, n), Advance(0), Advance(0), Register(n, labels2), Advance(0)]
  }

  lemma FirstSections(setup: Setup, n: string, labels1: Labels, labels2: Labels, job: Job)
    ensures At(setup, World(map[], job, map[]), Relabelling(n, labels1, labels2), 3)
         == World(map[n := labels1], job, map[0 := Request(n, Checked)])
  {
    var w0, events := World(map[], job, map[]), Relabelling(n, labels1, labels2);
    assert At(setup, w0, events, 0) == w0;
    var w1 := At(setup, w0, events, 1);
    assert w1 == Next(setup, w0, events[0]) == World(map[n := labels1], job, map[]);
    var w2 := At(setup, w0, events, 2);
    assert w2 == Next(setup, w1, events[1]) == World(map[n := labels1], job, map[0 := Request(n, Arrived)]);
    var w3 := At(setup, w0, events, 3);
    assert w3 == Next(setup, w2, events[2]);
  }

  lemma RelabelledAfterReading(setup: Setup, n: string, labels1: Labels, labels2: Labels, job: Job)
    ensures At(setup, World(map[], job, map[]), Relabelling(n, labels1, labels2), 5)
         == World(map[n := labels2], job, map[0 := Request(n, Labelled(labels1))])
  {
    var w0, events := World(map[], job, map[]), Relabelling(n, labels1, labels2);
    FirstSections(setup, n, labels1, labels2, job);
    var w4 := At(setup, w0, events, 4);
    assert w4 == Next(setup, At(setup, w0, events, 3), events[3]);
    assert w4 == World(map[n := labels1], job, map[0 := Request(n, Labelled(labels1))]);
    var w5 := At(setup, w0, events, 5);
    assert w5 == Next(setup, w4, events[4]);
  }

  /**
   With manifests a reply can be out of date when it is decided: a node relabelled between GetLabels and the
   read-locked section gets the job of its former labels.
   */
  lemma ReplyMayBeOutdated(setup: Setup, n: string, labels1: Labels, labels2: Labels, job: Job)
    returns (w0: World, events: seq<Event>)
    requires HasManifests(setup)
    requires ManifestJob(setup, labels1) != ManifestJob(setup, labels2)
    ensures w0.requests == map[] && |events| == 6 && events[5] == Advance(0)
    ensures 0 in At(setup, w0, events, 5).requests && !CurrentAt(setup, w0, events, 5, 0)
  {
    w0, events := World(map[], job, map[]), Relabelling(n, labels1, labels2);
    RelabelledAfterReading(setup, n, labels1, labels2, job);
  }

  lemma OneValidManifest() returns (setup: Setup)
    ensures forall pb :: pb in setup.playbooks ==> pb.manifest.Some? && Dispatchable(pb.manifest.value)
    ensures !NothingSelects(setup)
  {
    var m := ValidManifestMayRepeatName();
    var pb := Playbook("0123456789abcdef", "web", "web", "/playbooks/web/playbook.yml", 0, Some(m));
    setup := Setup([pb], "");
    assert pb in setup.playbooks;
    ValidManifestsSelect(setup.playbooks, "");
  }

  /** Such a run with one validated manifest. */
  lemma ValidManifestMayOutdateReply() returns (setup: Setup, w0: World, events: seq<Event>)
    ensures forall pb :: pb in setup.playbooks ==> pb.manifest.Some? && Dispatchable(pb.manifest.value)
    ensures w0.requests == map[] && |events| == 6 && events[5] == Advance(0)
    ensures 0 in At(setup, w0, events, 5).requests && !CurrentAt(setup, w0, events, 5, 0)
  {
    setup := OneValidManifest();
    var labels1, labels2 := LabelsThatDiffer(setup);
    w0, events := ReplyMayBeOutdated(setup, "node", labels1, labels2, NO_JOB);
  }

  /** Every reply of every run is current when it is decided. */
  ghost predicate AlwaysCurrent(setup: Setup) {
    forall w0: World, events: seq<Event>, i: nat, id: nat ::
      w0.requests == map[] && i < |events| && events[i] == Advance(id) && id in At(setup, w0, events, i).requests
      ==> CurrentAt(setup, w0, events, i, id)
  }

  /**
   Replies are always current exactly when no selector says anything. This can be read off the manifests before
   any request arrives.
   */
  lemma AlwaysCurrentIffNothingSelects(setup: Setup)
    ensures AlwaysCurrent(setup) <==> NothingSelects(setup)
  {
    if NothingSelects(setup) {
      LabelsMatterIffSelected(setup);
      forall w0: World, events: seq<Event>, i: nat, id: nat
        | w0.requests == map[] && i < |events| && events[i] == Advance(id) && id in At(setup, w0, events, i).requests
        ensures CurrentAt(setup, w0, events, i, id)
      {
        if At(setup, w0, events, i).requests[id].progress.Labelled? {
          CurrentIffSameJob(setup, w0, events, i, id);
        }
      }
    } else {
      var labels1, labels2 := LabelsThatDiffer(setup);
      var w0, events := ReplyMayBeOutdated(setup, "node", labels1, labels2, NO_JOB);
    }
  }

  /** With the playbooks of a scan, replies are always current exactly when none of them has a manifest. */
  lemma ScannedAlwaysCurrentIff(hash: string -> Digest, baseDir: string, entries: seq<Entry>, url: string)
    ensures AlwaysCurrent(Setup(Discovered(hash, baseDir, entries), url))
      <==> !HasManifests(Setup(Discovered(hash, baseDir, entries), url))
  {
    ValidManifestsSelect(Discovered(hash, baseDir, entries), url);
    AlwaysCurrentIffNothingSelects(Setup(Discovered(hash, baseDir, entries), url));
  }
}
