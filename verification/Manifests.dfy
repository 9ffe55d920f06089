/**
 pkg/manifest: validation of `helvilette.yml` and the selection of node groups by labels.
 */
module Manifests {
  import opened Basics
  import opened Types

  const SUPPORTED_API_VERSION := "helvilette.io/v1alpha1"
  const SUPPORTED_KIND := "PlaybookDeployment"

  /** One constructor per error message; the group errors carry the index they name. */
  datatype Problem =
    | UnsupportedAPIVersion
    | UnsupportedKind
    | NameEmpty
    | RepoEmpty
    | PlaybookEmpty
    | NoNodeGroups
    | GroupNameEmpty(index: nat)
    | GroupSelectorEmpty(index: nat)

  // ---------------------------------------------------------------- validation

  /** A group that can be named in a job ID and matched by some node. */
  predicate UsableGroup(g: NodeGroup) {
    g.name != "" && g.nodeSelector != map[]
  }

  /** What every dispatchable manifest has, stated without an order of checks. */
  predicate Dispatchable(m: Manifest) {
    && m.apiVersion == SUPPORTED_API_VERSION
    && m.kind == SUPPORTED_KIND
    && m.metadataName != ""
    && m.repo != ""
    && m.playbook != ""
    && m.nodeGroups != []
    && forall g :: g in m.nodeGroups ==> UsableGroup(g)
  }

  function ValidateTypeMeta(m: Manifest): Option<Problem> {
    if m.apiVersion != SUPPORTED_API_VERSION then Some(UnsupportedAPIVersion)
    else if m.kind != SUPPORTED_KIND then Some(UnsupportedKind)
    else None
  }

  function ValidateSpec(m: Manifest): Option<Problem> {
    if m.repo == "" then Some(RepoEmpty)
    else if m.playbook == "" then Some(PlaybookEmpty)
    else None
  }

  function ValidateNodeGroup(index: nat, g: NodeGroup): Option<Problem> {
    if g.name == "" then Some(GroupNameEmpty(index))
    else if |g.nodeSelector| == 0 then Some(GroupSelectorEmpty(index))
    else None
  }

  /** The loop of validateNodeGroups from group `i` on: it stops at the first bad group. */
  function ValidateGroupsFrom(groups: seq<NodeGroup>, i: nat): (p: Option<Problem>)
    requires i <= |groups|
    ensures p.None? <==> forall k :: i <= k < |groups| ==> UsableGroup(groups[k])
    ensures p.Some? ==>
      && (p.value.GroupNameEmpty? || p.value.GroupSelectorEmpty?)
      && i <= p.value.index < |groups|
      && (forall k :: i <= k < p.value.index ==> UsableGroup(groups[k]))
      && (p.value.GroupNameEmpty? <==> groups[p.value.index].name == "")
      && (p.value.GroupSelectorEmpty? ==> groups[p.value.index].nodeSelector == map[])
    decreases |groups| - i
  {
    if i == |groups| then None
    else
      var p := ValidateNodeGroup(i, groups[i]);
      if p.Some? then p else ValidateGroupsFrom(groups, i + 1)
  }

  function ValidateNodeGroups(groups: seq<NodeGroup>): Option<Problem> {
    if |groups| == 0 then Some(NoNodeGroups) else ValidateGroupsFrom(groups, 0)
  }

  function Validate(m: Manifest): Option<Problem> {
    var typeMeta := ValidateTypeMeta(m);
    if typeMeta.Some? then typeMeta
    else if m.metadataName == "" then Some(NameEmpty)
    else
      var spec := ValidateSpec(m);
      if spec.Some? then spec else ValidateNodeGroups(m.nodeGroups)
  }

  /** `m` has the fault that `p` complains of, whatever else is wrong with it. */
  predicate HasFault(m: Manifest, p: Problem) {
    match p
    case UnsupportedAPIVersion => m.apiVersion != "helvilette.io/v1alpha1"
    case UnsupportedKind => m.kind != "PlaybookDeployment"
    case NameEmpty => m.metadataName == ""
    case RepoEmpty => m.repo == ""
    case PlaybookEmpty => m.playbook == ""
    case NoNodeGroups => m.nodeGroups == []
    case GroupNameEmpty(i) => i < |m.nodeGroups| && m.nodeGroups[i].name == ""
    case GroupSelectorEmpty(i) => i < |m.nodeGroups| && m.nodeGroups[i].nodeSelector == map[]
  }

  /** The order in which complaints are made. */
  function Rank(p: Problem): nat {
    match p
    case UnsupportedAPIVersion => 0
    case UnsupportedKind => 1
    case NameEmpty => 2
    case RepoEmpty => 3
    case PlaybookEmpty => 4
    case NoNodeGroups => 5
    case GroupNameEmpty(i) => 6 + 2 * i
    case GroupSelectorEmpty(i) => 7 + 2 * i
  }

  /** Of all faults of a manifest, validation reports the first. */
  lemma ValidateReportsFirst(m: Manifest, p: Problem)
    ensures Validate(m) == Some(p) <==> HasFault(m, p) && forall q :: HasFault(m, q) ==> Rank(p) <= Rank(q)
  {
    var v := Validate(m);
    if v.Some? {
      assert HasFault(m, v.value);
      forall q | HasFault(m, q)
        ensures Rank(v.value) <= Rank(q) && (Rank(q) == Rank(v.value) ==> q == v.value)
      {
      }
    } else {
      ValidateAcceptsDispatchable(m);
      assert forall i :: 0 <= i < |m.nodeGroups| ==> m.nodeGroups[i] in m.nodeGroups;
    }
  }

  /** Validation accepts exactly the dispatchable manifests. */
  lemma ValidateAcceptsDispatchable(m: Manifest)
    ensures Validate(m).None? <==> Dispatchable(m)
  {
    assert (forall g :: g in m.nodeGroups ==> UsableGroup(g))
      <==> (forall k :: 0 <= k < |m.nodeGroups| ==> UsableGroup(m.nodeGroups[k]));
  }

  // ---------------------------------------------------------------- parsing

  /** What reading `helvilette.yml` from disk and unmarshalling it can give. */
  datatype ManifestFile = Missing | Unreadable | MalformedYAML | Decoded(manifest: Manifest)

  datatype ParseError = NotExist | ReadFailed | YAMLFailed | Rejected(problem: Problem)

  /** Read, unmarshal, validate, in that order; only a validated manifest is returned. */
  function ParseFile(file: ManifestFile): (r: Result<Manifest, ParseError>)
    ensures r.Ok? <==> file.Decoded? && Dispatchable(file.manifest)
    ensures r.Ok? ==> file == Decoded(r.value)
    ensures r == Err(NotExist) <==> file.Missing?
    ensures r == Err(ReadFailed) <==> file.Unreadable?
    ensures r == Err(YAMLFailed) <==> file.MalformedYAML?
    ensures r.Err? && r.error.Rejected? ==> file.Decoded? && HasFault(file.manifest, r.error.problem)
  {
    match file
    case Missing => Err(NotExist)
    case Unreadable => Err(ReadFailed)
    case MalformedYAML => Err(YAMLFailed)
    case Decoded(m) =>
      ValidateAcceptsDispatchable(m);
      var p := Validate(m);
      if p.Some? then
        ValidateReportsFirst(m, p.value);
        Err(Rejected(p.value))
      else Ok(m)
  }

  // ---------------------------------------------------------------- selection

  /**
   A selector picks a label set when it is not empty and each of its entries equals the label read
   with the default "". An entry whose value is "" therefore also accepts a missing label.
   */
  predicate Selects(selector: map<string, string>, labels: Labels) {
    && selector != map[]
    && forall k :: k in selector ==> Lookup(labels, k) == selector[k]
  }

  /**
   What the default means entry by entry: a present label must have the selector's value, and a missing one is
   accepted exactly where that value is empty.
   */
  lemma SelectsIff(selector: map<string, string>, labels: Labels)
    ensures Selects(selector, labels) <==>
      && selector != map[]
      && forall k :: k in selector ==> if k in labels then labels[k] == selector[k] else selector[k] == ""
  {
    forall k | k in selector
      ensures Lookup(labels, k) == selector[k] <==> if k in labels then labels[k] == selector[k] else selector[k] == ""
    {
    }
  }

  /** `small` is literally contained in `big`. */
  predicate Submap(small: map<string, string>, big: map<string, string>) {
    forall k :: k in small ==> k in big && big[k] == small[k]
  }

  /** isSubset: walks the selector in whatever order the map yields and leaves at the first mismatch. */
  method IsSubset(selector: map<string, string>, labels: Labels) returns (ok: bool)
    ensures ok <==> Selects(selector, labels)
  {
    if |selector| == 0 {
      return false;
    }
    var todo := selector.Keys;
    while todo != {}
      invariant todo <= selector.Keys
      invariant forall k :: k in selector && k !in todo ==> Lookup(labels, k) == selector[k]
      decreases |todo|
    {
      var k :| k in todo;
      if Lookup(labels, k) != selector[k] {
        return false;
      }
      todo := todo - {k};
    }
    return true;
  }

  /** The groups of `groups` that select `labels`, in manifest order. */
  function Matching(groups: seq<NodeGroup>, labels: Labels): seq<NodeGroup> {
    if groups == [] then []
    else
      var last := groups[|groups| - 1];
      Matching(groups[..|groups| - 1], labels) + (if Selects(last.nodeSelector, labels) then [last] else [])
  }

  /** The matches are exactly the selecting groups; so a group of a validated manifest matches its own selector. */
  lemma {:induction false} MatchingIsSelection(groups: seq<NodeGroup>, labels: Labels, g: NodeGroup)
    ensures g in Matching(groups, labels) <==> g in groups && Selects(g.nodeSelector, labels)
    ensures UsableGroup(g) && g in groups && labels == g.nodeSelector ==> g in Matching(groups, labels)
  {
    if groups != [] {
      var front := groups[..|groups| - 1];
      MatchingIsSelection(front, labels, g);
      assert g in groups <==> g in front || g == groups[|groups| - 1];
    }
  }

  method MatchNodeGroups(m: Manifest, labels: Labels) returns (matches: seq<NodeGroup>)
    ensures matches == Matching(m.nodeGroups, labels)
  {
    matches := [];
    for i := 0 to |m.nodeGroups|
      invariant matches == Matching(m.nodeGroups[..i], labels)
    {
      var group := m.nodeGroups[i];
      var ok := IsSubset(group.nodeSelector, labels);
      if ok {
        matches := matches + [group];
      }
      assert m.nodeGroups[..i + 1][..i] == m.nodeGroups[..i];
    }
    assert m.nodeGroups[..|m.nodeGroups|] == m.nodeGroups;
  }

  /** `k` is the first group, in manifest order, that selects `labels`. */
  predicate FirstGroup(groups: seq<NodeGroup>, labels: Labels, k: nat) {
    && k < |groups|
    && Selects(groups[k].nodeSelector, labels)
    && forall j :: 0 <= j < k ==> !Selects(groups[j].nodeSelector, labels)
  }

  /** No match means no group selects. */
  predicate NoGroup(groups: seq<NodeGroup>, labels: Labels) {
    forall j :: 0 <= j < |groups| ==> !Selects(groups[j].nodeSelector, labels)
  }

  lemma {:induction false} NoGroupOrFirst(groups: seq<NodeGroup>, labels: Labels)
    ensures NoGroup(groups, labels) || exists k: nat :: FirstGroup(groups, labels, k)
  {
    if groups != [] {
      var n := |groups| - 1;
      var front := groups[..n];
      NoGroupOrFirst(front, labels);
      if NoGroup(front, labels) {
        forall j | 0 <= j < n
          ensures !Selects(groups[j].nodeSelector, labels)
        {
          assert front[j] == groups[j];
        }
        assert Selects(groups[n].nodeSelector, labels) ==> FirstGroup(groups, labels, n);
      } else {
        var k: nat :| FirstGroup(front, labels, k);
        assert front[k] == groups[k];
        assert forall j :: 0 <= j < k ==> front[j] == groups[j];
        assert FirstGroup(groups, labels, k);
      }
    }
  }

  lemma {:induction false} NoMatching(groups: seq<NodeGroup>, labels: Labels)
    requires NoGroup(groups, labels)
    ensures Matching(groups, labels) == []
  {
    if groups != [] {
      var front := groups[..|groups| - 1];
      assert forall j :: 0 <= j < |front| ==> front[j] == groups[j];
      NoMatching(front, labels);
    }
  }

  /** `f` lists, in increasing order, exactly the positions of `groups` that select `labels`. */
  ghost predicate SelectingPositions(groups: seq<NodeGroup>, labels: Labels, f: seq<nat>) {
    && (forall i, j :: 0 <= i < j < |f| ==> f[i] < f[j])
    && (forall p: nat :: p in f <==> p < |groups| && Selects(groups[p].nodeSelector, labels))
  }

  /** `matches` are the groups at those positions. */
  ghost predicate AreGroupsAt(groups: seq<NodeGroup>, matches: seq<NodeGroup>, f: seq<nat>) {
    |matches| == |f| && forall i :: 0 <= i < |f| ==> f[i] < |groups| && matches[i] == groups[f[i]]
  }

  lemma SelectOneMore(groups: seq<NodeGroup>, g: NodeGroup, labels: Labels, matches: seq<NodeGroup>, f: seq<nat>)
    requires SelectingPositions(groups, labels, f) && AreGroupsAt(groups, matches, f)
    requires Selects(g.nodeSelector, labels)
    ensures SelectingPositions(groups + [g], labels, f + [|groups|])
    ensures AreGroupsAt(groups + [g], matches + [g], f + [|groups|])
  {
    assert forall i :: 0 <= i < |f| ==> f[i] in f;
    var f' := f + [|groups|];
    assert forall p: nat :: p in f' <==> p in f || p == |groups|;
  }

  lemma PassOneMore(groups: seq<NodeGroup>, g: NodeGroup, labels: Labels, matches: seq<NodeGroup>, f: seq<nat>)
    requires SelectingPositions(groups, labels, f) && AreGroupsAt(groups, matches, f)
    requires !Selects(g.nodeSelector, labels)
    ensures SelectingPositions(groups + [g], labels, f) && AreGroupsAt(groups + [g], matches + [], f)
  {
  }

  /** The matches are the selecting groups in manifest order, each as often as it stands there. */
  lemma {:induction false} MatchingInOrder(groups: seq<NodeGroup>, labels: Labels) returns (f: seq<nat>)
    ensures SelectingPositions(groups, labels, f) && AreGroupsAt(groups, Matching(groups, labels), f)
  {
    if groups == [] {
      f := [];
    } else {
      var front, last := groups[..|groups| - 1], groups[|groups| - 1];
      f := MatchingInOrder(front, labels);
      assert groups == front + [last];
      if Selects(last.nodeSelector, labels) {
        SelectOneMore(front, last, labels, Matching(front, labels), f);
        f := f + [|front|];
      } else {
        PassOneMore(front, last, labels, Matching(front, labels), f);
      }
    }
  }

  /** Taking element 0 of the matches is taking the first selecting group. */
  lemma {:induction false} MatchingHead(groups: seq<NodeGroup>, labels: Labels, k: nat)
    requires FirstGroup(groups, labels, k)
    ensures Matching(groups, labels) != [] && Matching(groups, labels)[0] == groups[k]
  {
    var front := groups[..|groups| - 1];
    assert forall j :: 0 <= j < |front| ==> front[j] == groups[j];
    if k < |front| {
      MatchingHead(front, labels, k);
    } else {
      NoMatching(front, labels);
    }
  }
}
