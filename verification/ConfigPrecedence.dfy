/**
 What LoadConfig's layers mean: each value comes from the highest source that usably sets it, the provenance map
 names exactly that source, and nothing depends on the order in which label maps are iterated.
 */
module ConfigPrecedence {
  import opened Basics
  import opened LabelText
  import opened Urls
  import opened AgentConfig

  // ---------------------------------------------------------------- who sets what

  datatype Field = URLField | NodeIDField | IntervalField | DirField | LabelOf(key: string)

  function FieldName(f: Field): string {
    match f
    case URLField => "othelaURL"
    case NodeIDField => "nodeID"
    case IntervalField => "pollInterval"
    case DirField => "workspaceDir"
    case LabelOf(k) => LabelField(k)
  }

  predicate Sets(l: Layer, f: Field) {
    match f
    case URLField => l.othelaURL.Some?
    case NodeIDField => l.nodeID.Some?
    case IntervalField => l.pollInterval.Some?
    case DirField => l.workspaceDir.Some?
    case LabelOf(k) => k in l.labels
  }

  function SourceOf(l: Layer, f: Field): string {
    match f
    case URLField => l.sources.othelaURL
    case NodeIDField => l.sources.nodeID
    case IntervalField => l.sources.pollInterval
    case DirField => l.sources.workspaceDir
    case LabelOf(_) => l.sources.labels
  }

  /** `c` has for field `f` the value that layer `l` sets. */
  predicate Agrees(c: Configuration, l: Layer, f: Field)
    requires Sets(l, f)
  {
    match f
    case URLField => c.othelaURL == l.othelaURL.value
    case NodeIDField => c.nodeID == l.nodeID.value
    case IntervalField => c.pollInterval == l.pollInterval.value
    case DirField => c.workspaceDir == l.workspaceDir.value
    case LabelOf(k) => k in c.labels && c.labels[k] == l.labels[k]
  }

  /** Layer `i` sets `f` and no higher layer does. */
  ghost predicate Highest(layers: seq<Layer>, f: Field, i: nat) {
    i < |layers| && Sets(layers[i], f) && forall j :: i < j < |layers| ==> !Sets(layers[j], f)
  }

  lemma {:induction false} HighestExists(layers: seq<Layer>, f: Field, j: nat)
    requires j < |layers| && Sets(layers[j], f)
    ensures exists i: nat :: Highest(layers, f, i)
    decreases |layers| - j
  {
    if k :| j < k < |layers| && Sets(layers[k], f) {
      HighestExists(layers, f, k);
    } else {
      assert Highest(layers, f, j);
    }
  }

  lemma {:induction false} AppliedAgreesWithHighest(layers: seq<Layer>, f: Field, i: nat)
    requires Highest(layers, f, i)
    ensures Agrees(Applied(layers), layers[i], f)
  {
    var n := |layers| - 1;
    if i < n {
      assert layers[..n][i] == layers[i];
      assert forall j :: 0 <= j < n ==> layers[..n][j] == layers[j];
      AppliedAgreesWithHighest(layers[..n], f, i);
      assert !Sets(layers[n], f);
    }
  }

  /** A label is in the merged configuration only because some layer sets it. */
  lemma {:induction false} AppliedLabelIsSet(layers: seq<Layer>, k: string) returns (i: nat)
    requires k in Applied(layers).labels
    ensures i < |layers| && Sets(layers[i], LabelOf(k))
  {
    var n := |layers| - 1;
    if k in layers[n].labels {
      i := n;
    } else {
      i := AppliedLabelIsSet(layers[..n], k);
    }
  }

  // ---------------------------------------------------------------- provenance of one layer

  lemma FieldNamesDiffer(f: Field, g: Field)
    ensures FieldName(f) == FieldName(g) <==> f == g
  {
    if f.LabelOf? {
      LabelFieldsAreTheirOwn(f.key, if g.LabelOf? then g.key else "");
    } else if g.LabelOf? {
      LabelFieldsAreTheirOwn(g.key, "");
    } else {
      assert |FieldName(URLField)| == 9 && |FieldName(NodeIDField)| == 6;
      assert FieldName(IntervalField)[0] == 'p' && FieldName(DirField)[0] == 'w';
    }
  }

  lemma LabelSourcesHas(labels: Labels, source: string, f: Field)
    ensures FieldName(f) in LabelSources(labels, source) <==> f.LabelOf? && f.key in labels
  {
    if FieldName(f) in LabelFields(labels.Keys) {
      var k :| k in labels && FieldName(f) == LabelField(k);
      FieldNamesDiffer(f, LabelOf(k));
    }
  }

  /** Membership in a sum of five maps, where a later one wins. */
  lemma SumHas(a: Provenance, b: Provenance, c: Provenance, d: Provenance, e: Provenance, name: string)
    ensures name in a + b + c + d + e <==> name in a || name in b || name in c || name in d || name in e
    ensures name in a + b + c + d + e ==>
      (a + b + c + d + e)[name]
      == if name in e then e[name] else if name in d then d[name] else if name in c then c[name]
         else if name in b then b[name] else a[name]
  {
  }

  /** `LayerSources`, one field at a time. */
  lemma LayerSourcesHas(l: Layer, name: string)
    ensures name in LayerSources(l) <==>
      || name in One(l.othelaURL.Some?, "othelaURL", l.sources.othelaURL)
      || name in One(l.nodeID.Some?, "nodeID", l.sources.nodeID)
      || name in One(l.pollInterval.Some?, "pollInterval", l.sources.pollInterval)
      || name in One(l.workspaceDir.Some?, "workspaceDir", l.sources.workspaceDir)
      || name in LabelSources(l.labels, l.sources.labels)
    ensures name in LabelSources(l.labels, l.sources.labels) ==> name in LayerSources(l) && LayerSources(l)[name] == l.sources.labels
    ensures name in LayerSources(l) && name !in LabelSources(l.labels, l.sources.labels) ==>
      LayerSources(l)[name]
      == if name in One(l.workspaceDir.Some?, "workspaceDir", l.sources.workspaceDir) then l.sources.workspaceDir
         else if name in One(l.pollInterval.Some?, "pollInterval", l.sources.pollInterval) then l.sources.pollInterval
         else if name in One(l.nodeID.Some?, "nodeID", l.sources.nodeID) then l.sources.nodeID
         else l.sources.othelaURL
  {
    SumHas(One(l.othelaURL.Some?, "othelaURL", l.sources.othelaURL), One(l.nodeID.Some?, "nodeID", l.sources.nodeID),
           One(l.pollInterval.Some?, "pollInterval", l.sources.pollInterval),
           One(l.workspaceDir.Some?, "workspaceDir", l.sources.workspaceDir),
           LabelSources(l.labels, l.sources.labels), name);
  }

  lemma OneHas(set_: bool, g: Field, source: string, f: Field)
    requires !g.LabelOf?
    ensures FieldName(f) in One(set_, FieldName(g), source) <==> set_ && f == g
  {
    FieldNamesDiffer(f, g);
  }

  /** A layer records the fields it sets, under the source it names for each. */
  lemma LayerRecords(l: Layer, f: Field)
    ensures FieldName(f) in LayerSources(l) <==> Sets(l, f)
    ensures Sets(l, f) ==> LayerSources(l)[FieldName(f)] == SourceOf(l, f)
  {
    OneHas(l.othelaURL.Some?, URLField, l.sources.othelaURL, f);
    OneHas(l.nodeID.Some?, NodeIDField, l.sources.nodeID, f);
    OneHas(l.pollInterval.Some?, IntervalField, l.sources.pollInterval, f);
    OneHas(l.workspaceDir.Some?, DirField, l.sources.workspaceDir, f);
    LabelSourcesHas(l.labels, l.sources.labels, f);
    LayerSourcesHas(l, FieldName(f));
  }

  lemma RecordedIsField(l: Layer, name: string) returns (f: Field)
    requires name in LayerSources(l)
    ensures FieldName(f) == name && Sets(l, f)
  {
    LayerSourcesHas(l, name);
    if name in LabelFields(l.labels.Keys) {
      var k :| k in l.labels && name == LabelField(k);
      f := LabelOf(k);
    } else if name in One(l.othelaURL.Some?, "othelaURL", l.sources.othelaURL) {
      f := URLField;
    } else if name in One(l.nodeID.Some?, "nodeID", l.sources.nodeID) {
      f := NodeIDField;
    } else if name in One(l.pollInterval.Some?, "pollInterval", l.sources.pollInterval) {
      f := IntervalField;
    } else {
      f := DirField;
    }
  }

  lemma ProvenanceOfHighest(layers: seq<Layer>, f: Field, i: nat)
    requires Highest(layers, f, i)
    ensures FieldName(f) in Overlay(AllSources(layers))
    ensures Overlay(AllSources(layers))[FieldName(f)] == SourceOf(layers[i], f)
  {
    var all := AllSources(layers);
    forall j: nat | i <= j < |layers|
      ensures FieldName(f) in all[j] <==> Sets(layers[j], f)
      ensures j == i ==> all[i][FieldName(f)] == SourceOf(layers[i], f)
    {
      LayerRecords(layers[j], f);
    }
    assert LastLayerWith(all, FieldName(f), i);
    OverlayIsLast(all, FieldName(f));
  }

  // ---------------------------------------------------------------- the results

  /** The configuration before its URL takes its final form. */
  function BeforeNormalizing(parse: DurationParser, inputs: Inputs, config: Configuration): Configuration {
    config.(othelaURL := Applied(Layers(parse, inputs)).othelaURL)
  }

  /**
   Command line over file over environment over default, for every field and every label: the highest source
   that usably sets it gives the value, and the provenance entry is that source's name.
   */
  lemma HighestSourceWins(parse: DurationParser, inputs: Inputs, config: Configuration, provenance: Provenance, f: Field, i: nat)
    requires Resolved(parse, inputs, config, provenance)
    requires Highest(Layers(parse, inputs), f, i)
    ensures Agrees(BeforeNormalizing(parse, inputs, config), Layers(parse, inputs)[i], f)
    ensures f == URLField ==> config.othelaURL == NormalizeURL(Layers(parse, inputs)[i].othelaURL.value)
    ensures FieldName(f) in provenance && provenance[FieldName(f)] == SourceOf(Layers(parse, inputs)[i], f)
  {
    AppliedAgreesWithHighest(Layers(parse, inputs), f, i);
    ProvenanceOfHighest(Layers(parse, inputs), f, i);
  }

  /** A field that is resolved: one of the four, or a label of the configuration. */
  predicate IsResolved(config: Configuration, f: Field) {
    f.LabelOf? ==> f.key in config.labels
  }

  /** Exactly the resolved fields are set by some layer. */
  lemma ResolvedIffSet(parse: DurationParser, inputs: Inputs, config: Configuration, provenance: Provenance, f: Field)
    requires Resolved(parse, inputs, config, provenance)
    ensures IsResolved(config, f) <==> exists i: nat :: Highest(Layers(parse, inputs), f, i)
  {
    var layers := Layers(parse, inputs);
    if IsResolved(config, f) {
      var i: nat := 0;
      if f.LabelOf? {
        i := AppliedLabelIsSet(layers, f.key);
      }
      HighestExists(layers, f, i);
    }
    if i: nat :| Highest(layers, f, i) {
      AppliedAgreesWithHighest(layers, f, i);
    }
  }

  /** The provenance map has an entry for every resolved field and for nothing else. */
  lemma ProvenanceIsExact(parse: DurationParser, inputs: Inputs, config: Configuration, provenance: Provenance)
    requires Resolved(parse, inputs, config, provenance)
    ensures forall f :: FieldName(f) in provenance <==> IsResolved(config, f)
    ensures forall name :: name in provenance ==> exists f :: FieldName(f) == name
  {
    var layers := Layers(parse, inputs);
    forall name | name in provenance
      ensures exists f :: FieldName(f) == name && IsResolved(config, f)
    {
      OverlayIsLast(AllSources(layers), name);
      var i: nat :| LastLayerWith(AllSources(layers), name, i);
      var f := RecordedIsField(layers[i], name);
      HighestExists(layers, f, i);
      ResolvedIffSet(parse, inputs, config, provenance, f);
    }
    forall f
      ensures FieldName(f) in provenance <==> IsResolved(config, f)
    {
      ResolvedIffSet(parse, inputs, config, provenance, f);
      if i: nat :| Highest(layers, f, i) {
        ProvenanceOfHighest(layers, f, i);
      }
      if FieldName(f) in provenance {
        var g :| FieldName(g) == FieldName(f) && IsResolved(config, g);
        FieldNamesDiffer(f, g);
      }
    }
  }

  predicate Named(s: Sources) {
    s.othelaURL != "" && s.nodeID != "" && s.pollInterval != "" && s.workspaceDir != "" && s.labels != ""
  }

  lemma EnvAndFlagSourcesAreNamed(names: Sources)
    requires names == ENV_SOURCES || names == CLI_SOURCES
    ensures Named(names)
  {
    assert |"env("| == 4 && |"cli(--"| == 6;
  }

  lemma SourcesAreNamed(parse: DurationParser, inputs: Inputs, i: nat)
    requires i < |Layers(parse, inputs)|
    ensures Named(Layers(parse, inputs)[i].sources)
  {
    EnvAndFlagSourcesAreNamed(ENV_SOURCES);
    EnvAndFlagSourcesAreNamed(CLI_SOURCES);
  }

  /** No recorded source is the empty string, so a printed configuration never falls back to "default". */
  lemma ProvenanceIsNamed(parse: DurationParser, inputs: Inputs, config: Configuration, provenance: Provenance, f: Field)
    requires Resolved(parse, inputs, config, provenance) && IsResolved(config, f)
    ensures FieldName(f) in provenance && provenance[FieldName(f)] != ""
  {
    var layers := Layers(parse, inputs);
    ResolvedIffSet(parse, inputs, config, provenance, f);
    var i: nat :| Highest(layers, f, i);
    ProvenanceOfHighest(layers, f, i);
    SourcesAreNamed(parse, inputs, i);
  }

  // ---------------------------------------------------------------- over the inputs themselves

  /** Flag over file over variable over default; an empty text is unset. */
  predicate ChosenText(value: string, source: string, cli: string, flagName: string, file: string,
                       env: string, envName: string, default: string, defaultName: string) {
    if cli != "" then value == cli && source == flagName
    else if file != "" then value == file && source == "config-file"
    else if env != "" then value == env && source == envName
    else value == default && source == defaultName
  }

  /** The same, where a text that is not a duration counts as unset. */
  predicate ChosenInterval(parse: DurationParser, value: int, source: string, cli: string, file: string, env: string) {
    if cli != "" && parse(cli).Some? then value == parse(cli).value && source == "cli(--poll-interval)"
    else if file != "" && parse(file).Some? then value == parse(file).value && source == "config-file"
    else if env != "" && parse(env).Some? then value == parse(env).value && source == "env(POLL_INTERVAL)"
    else value == 5_000_000_000 && source == "default"
  }

  /** The last of the three label maps that has the key gives the label; without one there is none. */
  predicate ChosenLabel(k: string, cli: Labels, file: Labels, env: Labels, labels: Labels, provenance: Provenance) {
    if k in cli || k in file || k in env then
      && k in labels && "labels." + k in provenance
      && if k in cli then labels[k] == cli[k] && provenance["labels." + k] == "cli(--labels)"
         else if k in file then labels[k] == file[k] && provenance["labels." + k] == "config-file"
         else labels[k] == env[k] && provenance["labels." + k] == "env(AGENT_LABELS)"
    else k !in labels && "labels." + k !in provenance
  }

  /** The four fields and their provenance are what these sources give; `url` is the URL as it was written. */
  predicate ChosenFields(parse: DurationParser, hostname: Option<string>, env: TextSettings, file: RawFile, cli: TextSettings,
                         url: string, config: Configuration, provenance: Provenance) {
    var named := hostname.Some? && hostname.value != "";
    && "othelaURL" in provenance && "nodeID" in provenance && "pollInterval" in provenance && "workspaceDir" in provenance
    && ChosenText(url, provenance["othelaURL"], cli.othelaURL, "cli(--othela-url)", file.othelaURL,
                  env.othelaURL, "env(OTHELA_URL)", "http://localhost:8080/api/v1", "default")
    && ChosenText(config.nodeID, provenance["nodeID"], cli.nodeID, "cli(--node-id)", file.nodeID, env.nodeID, "env(NODE_ID)",
                  if named then hostname.value else "agent-unknown", if named then "default(hostname)" else "default")
    && ChosenInterval(parse, config.pollInterval, provenance["pollInterval"], cli.pollInterval, file.pollInterval, env.pollInterval)
    && ChosenText(config.workspaceDir, provenance["workspaceDir"], cli.workspaceDir, "cli(--workspace-dir)", file.workspaceDir,
                  env.workspaceDir, "env(WORKSPACE_DIR)", "/tmp/helvilette", "default")
  }

  ghost predicate ChosenLabels(cli: Labels, file: Labels, env: Labels, labels: Labels, provenance: Provenance) {
    forall k :: ChosenLabel(k, cli, file, env, labels, provenance)
  }

  /** The whole configuration and its provenance are what these sources give. */
  ghost predicate Chosen(parse: DurationParser, hostname: Option<string>, env: TextSettings, file: RawFile, cli: TextSettings,
                         url: string, config: Configuration, provenance: Provenance) {
    && ChosenFields(parse, hostname, env, file, cli, url, config, provenance)
    && ChosenLabels(LabelsIn(cli.labels), file.labels, LabelsIn(env.labels), config.labels, provenance)
  }

  const NOT_SET := TextSettings("", "", "", "", "")

  lemma NoLabelsInNothing()
    ensures LabelsIn("") == map[]
  {
    OnePiece("");
  }

  lemma DefaultsChosen(parse: DurationParser, hostname: Option<string>)
    ensures Chosen(parse, hostname, NOT_SET, NO_FILE, NOT_SET, DEFAULT_URL, DefaultConfig(hostname), DefaultProvenance(hostname))
  {
    NoLabelsInNothing();
    forall k
      ensures "labels." + k !in DefaultProvenance(hostname)
    {
      LabelFieldsAreTheirOwn(k, "");
    }
  }

  /** What applying a layer does to the four fields and to a label, values and provenance alike. */
  lemma LayerApplied(c: Configuration, p: Provenance, l: Layer, f: Field)
    ensures
      var p' := p + LayerSources(l);
      && (Sets(l, f) ==> FieldName(f) in p' && p'[FieldName(f)] == SourceOf(l, f) && Agrees(ApplyLayer(c, l), l, f))
      && (!Sets(l, f) ==> (FieldName(f) in p' <==> FieldName(f) in p) && (FieldName(f) in p ==> p'[FieldName(f)] == p[FieldName(f)]))
  {
    LayerRecords(l, f);
  }

  lemma FieldsApplied(c: Configuration, p: Provenance, l: Layer, p': Provenance)
    requires p' == p + LayerSources(l)
    requires "othelaURL" in p && "nodeID" in p && "pollInterval" in p && "workspaceDir" in p
    ensures "othelaURL" in p' && "nodeID" in p' && "pollInterval" in p' && "workspaceDir" in p'
    ensures p'["othelaURL"] == if l.othelaURL.Some? then l.sources.othelaURL else p["othelaURL"]
    ensures p'["nodeID"] == if l.nodeID.Some? then l.sources.nodeID else p["nodeID"]
    ensures p'["pollInterval"] == if l.pollInterval.Some? then l.sources.pollInterval else p["pollInterval"]
    ensures p'["workspaceDir"] == if l.workspaceDir.Some? then l.sources.workspaceDir else p["workspaceDir"]
  {
    LayerApplied(c, p, l, URLField);
    LayerApplied(c, p, l, NodeIDField);
    LayerApplied(c, p, l, IntervalField);
    LayerApplied(c, p, l, DirField);
  }

  lemma LabelApplied(c: Configuration, p: Provenance, l: Layer, k: string)
    ensures
      var c', p' := ApplyLayer(c, l), p + LayerSources(l);
      && (k in l.labels ==> k in c'.labels && c'.labels[k] == l.labels[k]
                            && "labels." + k in p' && p'["labels." + k] == l.sources.labels)
      && (k !in l.labels ==> (k in c'.labels <==> k in c.labels) && ("labels." + k in p' <==> "labels." + k in p)
                             && (k in c.labels ==> c'.labels[k] == c.labels[k])
                             && ("labels." + k in p ==> p'["labels." + k] == p["labels." + k]))
  {
    LayerApplied(c, p, l, LabelOf(k));
    assert FieldName(LabelOf(k)) == "labels." + k;
  }

  lemma LongVariableNames()
    ensures SourceEnv("OTHELA_URL") == "env(OTHELA_URL)" && SourceEnv("WORKSPACE_DIR") == "env(WORKSPACE_DIR)"
    ensures SourceEnv("POLL_INTERVAL") == "env(POLL_INTERVAL)"
  {
  }

  lemma VariableNames()
    ensures ENV_SOURCES == Sources("env(OTHELA_URL)", "env(NODE_ID)", "env(POLL_INTERVAL)", "env(WORKSPACE_DIR)", "env(AGENT_LABELS)")
  {
    LongVariableNames();
  }

  lemma LongFlagNames()
    ensures SourceCLI("othela-url") == "cli(--othela-url)" && SourceCLI("workspace-dir") == "cli(--workspace-dir)"
    ensures SourceCLI("poll-interval") == "cli(--poll-interval)"
  {
  }

  lemma FlagNames()
    ensures CLI_SOURCES
         == Sources("cli(--othela-url)", "cli(--node-id)", "cli(--poll-interval)", "cli(--workspace-dir)", "cli(--labels)")
  {
    LongFlagNames();
  }

  lemma EnvironmentFields(parse: DurationParser, hostname: Option<string>, env: TextSettings, names: Sources, c: Configuration, p: Provenance)
    requires names == Sources("env(OTHELA_URL)", "env(NODE_ID)", "env(POLL_INTERVAL)", "env(WORKSPACE_DIR)", "env(AGENT_LABELS)")
    requires ChosenFields(parse, hostname, NOT_SET, NO_FILE, NOT_SET, c.othelaURL, c, p)
    ensures
      var l := TextLayer(parse, env, names);
      var c' := ApplyLayer(c, l);
      ChosenFields(parse, hostname, env, NO_FILE, NOT_SET, c'.othelaURL, c', p + LayerSources(l))
  {
    var l := TextLayer(parse, env, names);
    FieldsApplied(c, p, l, p + LayerSources(l));
  }

  lemma FileFields(parse: DurationParser, hostname: Option<string>, env: TextSettings, raw: RawFile, c: Configuration, p: Provenance)
    requires ChosenFields(parse, hostname, env, NO_FILE, NOT_SET, c.othelaURL, c, p)
    ensures
      var l := FileLayer(parse, raw);
      var c' := ApplyLayer(c, l);
      ChosenFields(parse, hostname, env, raw, NOT_SET, c'.othelaURL, c', p + LayerSources(l))
  {
    var l := FileLayer(parse, raw);
    FieldsApplied(c, p, l, p + LayerSources(l));
  }

  lemma FlagFields(parse: DurationParser, hostname: Option<string>, env: TextSettings, file: RawFile, cli: TextSettings,
                   names: Sources, c: Configuration, p: Provenance)
    requires names == Sources("cli(--othela-url)", "cli(--node-id)", "cli(--poll-interval)", "cli(--workspace-dir)", "cli(--labels)")
    requires ChosenFields(parse, hostname, env, file, NOT_SET, c.othelaURL, c, p)
    ensures
      var l := TextLayer(parse, cli, names);
      var c' := ApplyLayer(c, l);
      ChosenFields(parse, hostname, env, file, cli, c'.othelaURL, c', p + LayerSources(l))
  {
    var l := TextLayer(parse, cli, names);
    FieldsApplied(c, p, l, p + LayerSources(l));
  }

  /** A layer above the chosen labels: its own labels win, under its own source. */
  lemma EnvironmentLabels(c: Configuration, p: Provenance, l: Layer)
    requires ChosenLabels(map[], map[], map[], c.labels, p) && l.sources.labels == "env(AGENT_LABELS)"
    ensures ChosenLabels(map[], map[], l.labels, ApplyLayer(c, l).labels, p + LayerSources(l))
  {
    forall k
      ensures ChosenLabel(k, map[], map[], l.labels, ApplyLayer(c, l).labels, p + LayerSources(l))
    {
      assert ChosenLabel(k, map[], map[], map[], c.labels, p);
      LabelApplied(c, p, l, k);
    }
  }

  lemma FileLabels(c: Configuration, p: Provenance, l: Layer, env: Labels)
    requires ChosenLabels(map[], map[], env, c.labels, p) && l.sources.labels == "config-file"
    ensures ChosenLabels(map[], l.labels, env, ApplyLayer(c, l).labels, p + LayerSources(l))
  {
    forall k
      ensures ChosenLabel(k, map[], l.labels, env, ApplyLayer(c, l).labels, p + LayerSources(l))
    {
      assert ChosenLabel(k, map[], map[], env, c.labels, p);
      LabelApplied(c, p, l, k);
    }
  }

  lemma FlagLabels(c: Configuration, p: Provenance, l: Layer, file: Labels, env: Labels)
    requires ChosenLabels(map[], file, env, c.labels, p) && l.sources.labels == "cli(--labels)"
    ensures ChosenLabels(l.labels, file, env, ApplyLayer(c, l).labels, p + LayerSources(l))
  {
    forall k
      ensures ChosenLabel(k, l.labels, file, env, ApplyLayer(c, l).labels, p + LayerSources(l))
    {
      assert ChosenLabel(k, map[], file, env, c.labels, p);
      LabelApplied(c, p, l, k);
    }
  }

  lemma EnvironmentChosen(parse: DurationParser, hostname: Option<string>, env: TextSettings, c: Configuration, p: Provenance)
    requires Chosen(parse, hostname, NOT_SET, NO_FILE, NOT_SET, c.othelaURL, c, p)
    ensures
      var l := TextLayer(parse, env, ENV_SOURCES);
      var c' := ApplyLayer(c, l);
      Chosen(parse, hostname, env, NO_FILE, NOT_SET, c'.othelaURL, c', p + LayerSources(l))
  {
    VariableNames();
    NoLabelsInNothing();
    EnvironmentFields(parse, hostname, env, ENV_SOURCES, c, p);
    EnvironmentLabels(c, p, TextLayer(parse, env, ENV_SOURCES));
  }

  lemma FileChosen(parse: DurationParser, hostname: Option<string>, env: TextSettings, raw: RawFile, c: Configuration, p: Provenance)
    requires Chosen(parse, hostname, env, NO_FILE, NOT_SET, c.othelaURL, c, p)
    ensures
      var l := FileLayer(parse, raw);
      var c' := ApplyLayer(c, l);
      Chosen(parse, hostname, env, raw, NOT_SET, c'.othelaURL, c', p + LayerSources(l))
  {
    NoLabelsInNothing();
    FileFields(parse, hostname, env, raw, c, p);
    FileLabels(c, p, FileLayer(parse, raw), LabelsIn(env.labels));
  }

  lemma FlagsChosen(parse: DurationParser, hostname: Option<string>, env: TextSettings, file: RawFile, cli: TextSettings,
                    c: Configuration, p: Provenance)
    requires Chosen(parse, hostname, env, file, NOT_SET, c.othelaURL, c, p)
    ensures
      var l := TextLayer(parse, cli, CLI_SOURCES);
      var c' := ApplyLayer(c, l);
      Chosen(parse, hostname, env, file, cli, c'.othelaURL, c', p + LayerSources(l))
  {
    FlagNames();
    NoLabelsInNothing();
    FlagFields(parse, hostname, env, file, cli, CLI_SOURCES, c, p);
    FlagLabels(c, p, TextLayer(parse, cli, CLI_SOURCES), file.labels, LabelsIn(env.labels));
  }

  /** What the file contributes: nothing unless it is given and decodes, and no labels after a malformed duration. */
  function FileGiven(parse: DurationParser, inputs: Inputs): RawFile {
    if inputs.configPath == "" || !inputs.file.Decoded? then RawFile("", "", "", "", map[])
    else if inputs.file.raw.pollInterval != "" && parse(inputs.file.raw.pollInterval).None? then inputs.file.raw.(labels := map[])
    else inputs.file.raw
  }

  /** Defaults, environment and file, over the inputs. */
  lemma BeforeFlags(parse: DurationParser, inputs: Inputs, c: Configuration, p: Provenance)
    requires Stage(AmbientLayers(parse, inputs) + FileLayers(parse, inputs), c, p)
    ensures Chosen(parse, inputs.hostname, inputs.env, FileGiven(parse, inputs), NOT_SET, c.othelaURL, c, p)
  {
    var env := TextLayer(parse, inputs.env, ENV_SOURCES);
    var c0, p0 := DefaultConfig(inputs.hostname), DefaultProvenance(inputs.hostname);
    var c1, p1 := ApplyLayer(c0, env), p0 + LayerSources(env);
    var ambient, raw := AmbientLayers(parse, inputs), FileGiven(parse, inputs);
    DefaultsChosen(parse, inputs.hostname);
    EnvironmentChosen(parse, inputs.hostname, inputs.env, c0, p0);
    AmbientStage(parse, inputs);
    FileLayersGiven(parse, inputs);
    if FileLayers(parse, inputs) == [] {
      assert ambient + [] == ambient;
    } else {
      NextStage(ambient, FileLayer(parse, raw), c1, p1);
      FileChosen(parse, inputs.hostname, inputs.env, raw, c1, p1);
    }
  }

  lemma FileLayersGiven(parse: DurationParser, inputs: Inputs)
    ensures FileLayers(parse, inputs) == [] || FileLayers(parse, inputs) == [FileLayer(parse, FileGiven(parse, inputs))]
    ensures FileLayers(parse, inputs) == [] ==> FileGiven(parse, inputs) == NO_FILE
  {
  }

  /** What all four sources give, the URL in its final form. */
  ghost predicate Loaded(parse: DurationParser, inputs: Inputs, config: Configuration, provenance: Provenance) {
    exists url ::
      && config.othelaURL == NormalizeURL(url)
      && Chosen(parse, inputs.hostname, inputs.env, FileGiven(parse, inputs), inputs.cli, url, config, provenance)
  }

  /** All four sources, over the inputs; the URL takes its final form last. */
  lemma AfterFlags(parse: DurationParser, inputs: Inputs, config: Configuration, provenance: Provenance)
    requires FileFault(parse, inputs).None? && Resolved(parse, inputs, config, provenance)
    ensures Loaded(parse, inputs, config, provenance)
  {
    var layers, cli := AmbientLayers(parse, inputs) + FileLayers(parse, inputs), TextLayer(parse, inputs.cli, CLI_SOURCES);
    var c, p := Applied(layers), Overlay(AllSources(layers));
    LayersInOrder(parse, inputs);
    NextStage(layers, cli, c, p);
    BeforeFlags(parse, inputs, c, p);
    FlagsChosen(parse, inputs.hostname, inputs.env, FileGiven(parse, inputs), inputs.cli, c, p);
    var url := ApplyLayer(c, cli).othelaURL;
    assert config == ApplyLayer(c, cli).(othelaURL := NormalizeURL(url));
    assert Chosen(parse, inputs.hostname, inputs.env, FileGiven(parse, inputs), inputs.cli, url, config, provenance);
  }

  /** The four ways in which reading the inputs can end. */
  lemma FaultIff(parse: DurationParser, inputs: Inputs)
    ensures FileFault(parse, inputs) == Some(CannotRead) <==> inputs.configPath != "" && inputs.file.Unreadable?
    ensures FileFault(parse, inputs) == Some(CannotParse) <==> inputs.configPath != "" && inputs.file.Malformed?
    ensures FileFault(parse, inputs) == Some(BadPollInterval) <==>
      && inputs.configPath != "" && inputs.file.Decoded?
      && inputs.file.raw.pollInterval != "" && parse(inputs.file.raw.pollInterval).None?
  {
  }

  /** What is left beside a fault: what defaults, environment and file had given by then, the URL as it was written. */
  ghost predicate LoadedPartly(parse: DurationParser, inputs: Inputs, config: Configuration, provenance: Provenance) {
    Chosen(parse, inputs.hostname, inputs.env, FileGiven(parse, inputs), NOT_SET, config.othelaURL, config, provenance)
  }

  /** The steps of LoadConfig. */
  method LoadSteps(parse: DurationParser, inputs: Inputs)
    returns (config: Configuration, provenance: Provenance, fault: Option<ConfigError>)
    ensures fault == FileFault(parse, inputs)
    ensures fault.None? ==> Resolved(parse, inputs, config, provenance)
    ensures fault.Some? ==> Stage(AmbientLayers(parse, inputs) + FileLayers(parse, inputs), config, provenance)
  {
    config, provenance := LoadAmbient(parse, inputs);
    config, provenance, fault := ApplyConfigFile(parse, inputs, config, provenance);
    if fault.Some? {
      return;
    }
    config, provenance := ApplyFlags(parse, inputs, config, provenance);
  }

  /**
   Only a given file can fail to load. Without a fault every value and its source are chosen from flags, file,
   environment and defaults, and the URL is normalised; with one, they are what was chosen before the fault.
   */
  method LoadConfig(parse: DurationParser, inputs: Inputs)
    returns (config: Configuration, provenance: Provenance, fault: Option<ConfigError>)
    ensures fault == Some(CannotRead) <==> inputs.configPath != "" && inputs.file.Unreadable?
    ensures fault == Some(CannotParse) <==> inputs.configPath != "" && inputs.file.Malformed?
    ensures fault == Some(BadPollInterval) <==>
      && inputs.configPath != "" && inputs.file.Decoded?
      && inputs.file.raw.pollInterval != "" && parse(inputs.file.raw.pollInterval).None?
    ensures fault.None? ==> Resolved(parse, inputs, config, provenance)
    ensures fault.None? ==> Loaded(parse, inputs, config, provenance)
    ensures fault.Some? ==> LoadedPartly(parse, inputs, config, provenance)
  {
    config, provenance, fault := LoadSteps(parse, inputs);
    FaultIff(parse, inputs);
    if fault.Some? {
      BeforeFlags(parse, inputs, config, provenance);
    } else {
      AfterFlags(parse, inputs, config, provenance);
    }
  }

  lemma FieldNameIff(f: Field, name: string)
    ensures FieldName(f) == name <==>
      match f
      case URLField => name == "othelaURL"
      case NodeIDField => name == "nodeID"
      case IntervalField => name == "pollInterval"
      case DirField => name == "workspaceDir"
      case LabelOf(k) => name == "labels." + k
  {
  }

  lemma NamedFieldIsRecorded(parse: DurationParser, inputs: Inputs, config: Configuration, provenance: Provenance, f: Field)
    requires Resolved(parse, inputs, config, provenance)
    ensures IsResolved(config, f) <==> FieldName(f) in provenance
  {
    ProvenanceIsExact(parse, inputs, config, provenance);
  }

  lemma RecordedNameIsField(parse: DurationParser, inputs: Inputs, config: Configuration, provenance: Provenance, name: string)
    returns (f: Field)
    requires Resolved(parse, inputs, config, provenance) && name in provenance
    ensures FieldName(f) == name && IsResolved(config, f)
  {
    ProvenanceIsExact(parse, inputs, config, provenance);
    f :| FieldName(f) == name;
  }

  /** The entries of the provenance map are the four fields and one for each label. */
  lemma ProvenanceNames(parse: DurationParser, inputs: Inputs, config: Configuration, provenance: Provenance, name: string)
    requires Resolved(parse, inputs, config, provenance)
    ensures name in provenance <==>
      || name == "othelaURL" || name == "nodeID" || name == "pollInterval" || name == "workspaceDir"
      || exists k :: k in config.labels && name == "labels." + k
  {
    if name in provenance {
      var f := RecordedNameIsField(parse, inputs, config, provenance, name);
      FieldNameIff(f, name);
    } else {
      forall f
        ensures FieldName(f) == name ==> !IsResolved(config, f)
      {
        NamedFieldIsRecorded(parse, inputs, config, provenance, f);
      }
      FieldNameIff(URLField, name);
      FieldNameIff(NodeIDField, name);
      FieldNameIff(IntervalField, name);
      FieldNameIff(DirField, name);
      if k :| k in config.labels && name == "labels." + k {
        FieldNameIff(LabelOf(k), name);
        assert IsResolved(config, LabelOf(k));
      }
    }
  }
}
