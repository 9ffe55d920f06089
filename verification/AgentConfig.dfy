/**
 cmd/agent/main.go, LoadConfig: defaults, environment, YAML file and command line, applied in that order to one
 configuration and one provenance map. The code is proved equal to an overlay of four layers, and the overlay
 to be "the highest source that sets it wins", for values and for provenance alike.
 */
module AgentConfig {
  import opened Basics
  import opened LabelText
  import opened Urls

  /** A duration is a number of nanoseconds. */
  datatype Configuration = Configuration(
    othelaURL: string,
    nodeID: string,
    pollInterval: int,
    workspaceDir: string,
    labels: Labels)

  type Provenance = map<string, string>

  // ---------------------------------------------------------------- inputs

  /** Environment variables or flags; the empty string means unset. */
  datatype TextSettings = TextSettings(othelaURL: string, nodeID: string, pollInterval: string, workspaceDir: string, labels: string)

  datatype RawFile = RawFile(othelaURL: string, nodeID: string, pollInterval: string, workspaceDir: string, labels: Labels)

  /** Reading and strictly decoding the YAML file; an empty file decodes to an empty RawFile. */
  datatype ConfigFile = Unreadable | Malformed | Decoded(raw: RawFile)

  datatype ConfigError = CannotRead | CannotParse | BadPollInterval

  /** `hostname` is absent when it cannot be determined; `configPath` is empty when no file is given. */
  datatype Inputs = Inputs(hostname: Option<string>, env: TextSettings, configPath: string, file: ConfigFile, cli: TextSettings)

  /** time.ParseDuration, of which nothing is assumed. */
  type DurationParser = string -> Option<int>

  // ---------------------------------------------------------------- layers

  datatype Sources = Sources(othelaURL: string, nodeID: string, pollInterval: string, workspaceDir: string, labels: string)

  /** What one source usably sets, and the names its values are reported under. */
  datatype Layer = Layer(
    othelaURL: Option<string>,
    nodeID: Option<string>,
    pollInterval: Option<int>,
    workspaceDir: Option<string>,
    labels: Labels,
    sources: Sources)

  const SOURCE_DEFAULT := "default"
  const SOURCE_DEFAULT_HOSTNAME := "default(hostname)"
  const SOURCE_CONFIG_FILE := "config-file"
  const FALLBACK_NODE_ID := "agent-unknown"
  const DEFAULT_URL := "http://localhost:8080/api/v1"
  const DEFAULT_INTERVAL := 5_000_000_000
  const DEFAULT_WORKSPACE := "/tmp/helvilette"

  function SourceEnv(name: string): string { "env(" + name + ")" }

  function SourceCLI(flag: string): string { "cli(--" + flag + ")" }

  const ENV_SOURCES := Sources(SourceEnv("OTHELA_URL"), SourceEnv("NODE_ID"), SourceEnv("POLL_INTERVAL"),
                               SourceEnv("WORKSPACE_DIR"), SourceEnv("AGENT_LABELS"))

  const FILE_SOURCES := Sources(SOURCE_CONFIG_FILE, SOURCE_CONFIG_FILE, SOURCE_CONFIG_FILE, SOURCE_CONFIG_FILE, SOURCE_CONFIG_FILE)

  const CLI_SOURCES := Sources(SourceCLI("othela-url"), SourceCLI("node-id"), SourceCLI("poll-interval"),
                               SourceCLI("workspace-dir"), SourceCLI("labels"))

  /** The machine's hostname when it has one. */
  function DefaultNodeID(hostname: Option<string>): (string, bool) {
    if hostname.Some? && hostname.value != "" then (hostname.value, true) else (FALLBACK_NODE_ID, false)
  }

  function NonEmpty(s: string): Option<string> {
    if s != "" then Some(s) else None
  }

  /** A malformed duration counts as unset. */
  function Interval(parse: DurationParser, s: string): Option<int> {
    if s != "" then parse(s) else None
  }

  function TextLabels(s: string): Labels {
    if s != "" then LabelsIn(s) else map[]
  }

  function DefaultLayer(hostname: Option<string>): Layer {
    var (id, fromHostname) := DefaultNodeID(hostname);
    Layer(Some(DEFAULT_URL), Some(id), Some(DEFAULT_INTERVAL), Some(DEFAULT_WORKSPACE), map[],
          Sources(SOURCE_DEFAULT, if fromHostname then SOURCE_DEFAULT_HOSTNAME else SOURCE_DEFAULT,
                  SOURCE_DEFAULT, SOURCE_DEFAULT, SOURCE_DEFAULT))
  }

  function TextLayer(parse: DurationParser, s: TextSettings, sources: Sources): Layer {
    Layer(NonEmpty(s.othelaURL), NonEmpty(s.nodeID), Interval(parse, s.pollInterval), NonEmpty(s.workspaceDir),
          TextLabels(s.labels), sources)
  }

  const NO_FILE := RawFile("", "", "", "", map[])

  function FileLayer(parse: DurationParser, raw: RawFile): Layer {
    Layer(NonEmpty(raw.othelaURL), NonEmpty(raw.nodeID), Interval(parse, raw.pollInterval), NonEmpty(raw.workspaceDir),
          raw.labels, FILE_SOURCES)
  }

  predicate BadInterval(parse: DurationParser, raw: RawFile) {
    raw.pollInterval != "" && parse(raw.pollInterval).None?
  }

  /** What the file block takes from a decoded file: a malformed duration stops it before the labels. */
  function FileBlockLayer(parse: DurationParser, raw: RawFile): Layer {
    if BadInterval(parse, raw) then FileLayer(parse, raw).(labels := map[]) else FileLayer(parse, raw)
  }

  /** The four sources, lowest priority first. */
  function Layers(parse: DurationParser, inputs: Inputs): seq<Layer> {
    [ DefaultLayer(inputs.hostname),
      TextLayer(parse, inputs.env, ENV_SOURCES),
      FileLayer(parse, if inputs.configPath != "" && inputs.file.Decoded? then inputs.file.raw else NO_FILE),
      TextLayer(parse, inputs.cli, CLI_SOURCES) ]
  }

  /** Only the file can make loading fail: unreadable, undecodable, or with a malformed duration. */
  function FileFault(parse: DurationParser, inputs: Inputs): Option<ConfigError> {
    if inputs.configPath == "" then None
    else
      match inputs.file
      case Unreadable => Some(CannotRead)
      case Malformed => Some(CannotParse)
      case Decoded(raw) => if BadInterval(parse, raw) then Some(BadPollInterval) else None
  }

  // ---------------------------------------------------------------- provenance fields

  const LABELS_PREFIX := "labels."

  function LabelField(k: string): string {
    LABELS_PREFIX + k
  }

  const FIXED_FIELDS := {"othelaURL", "nodeID", "pollInterval", "workspaceDir"}

  lemma LabelFieldsAreTheirOwn(k: string, k': string)
    ensures LabelField(k) == LabelField(k') <==> k == k'
    ensures LabelField(k) !in FIXED_FIELDS
  {
    assert LabelField(k)[7..] == k && LabelField(k')[7..] == k';
    assert LabelField(k)[0] == 'l';
  }

  function LabelFields(keys: set<string>): set<string> {
    set k | k in keys :: LabelField(k)
  }

  function LabelSources(labels: Labels, source: string): Provenance {
    map f | f in LabelFields(labels.Keys) :: source
  }

  function One(set_: bool, field: string, source: string): Provenance {
    if set_ then map[field := source] else map[]
  }

  /** The fields a layer sets, each with the layer's source for it. */
  function LayerSources(l: Layer): Provenance {
    One(l.othelaURL.Some?, "othelaURL", l.sources.othelaURL)
    + One(l.nodeID.Some?, "nodeID", l.sources.nodeID)
    + One(l.pollInterval.Some?, "pollInterval", l.sources.pollInterval)
    + One(l.workspaceDir.Some?, "workspaceDir", l.sources.workspaceDir)
    + LabelSources(l.labels, l.sources.labels)
  }

  function Or<T>(o: Option<T>, otherwise: T): T {
    if o.Some? then o.value else otherwise
  }

  function ApplyLayer(c: Configuration, l: Layer): Configuration {
    Configuration(Or(l.othelaURL, c.othelaURL), Or(l.nodeID, c.nodeID), Or(l.pollInterval, c.pollInterval),
                  Or(l.workspaceDir, c.workspaceDir), c.labels + l.labels)
  }

  // ---------------------------------------------------------------- the code

  /** `for k, v := range layer`: any order of the keys gives the overlay. */
  method OverlayLabels(labels: Labels, provenance: Provenance, layer: Labels, source: string)
    returns (labels': Labels, provenance': Provenance)
    ensures labels' == labels + layer
    ensures provenance' == provenance + LabelSources(layer, source)
  {
    labels', provenance' := labels, provenance;
    var todo := layer.Keys;
    while todo != {}
      invariant todo <= layer.Keys
      invariant labels' == labels + Visited(layer, todo)
      invariant provenance' == provenance + LabelSources(Visited(layer, todo), source)
      decreases |todo|
    {
      var k :| k in todo;
      LabelSourcesGrow(layer, todo, k, source);
      AssignAfter(labels, Visited(layer, todo), k, layer[k]);
      AssignAfter(provenance, LabelSources(Visited(layer, todo), source), LabelField(k), source);
      labels' := labels'[k := layer[k]];
      provenance' := provenance'[LabelField(k) := source];
      todo := todo - {k};
    }
    assert Visited(layer, {}) == layer;
  }

  /** The part of a label layer that the loop has visited. */
  function Visited(layer: Labels, todo: set<string>): Labels {
    layer - todo
  }

  lemma LabelSourcesGrow(layer: Labels, todo: set<string>, k: string, source: string)
    requires k in todo && todo <= layer.Keys
    ensures Visited(layer, todo - {k}) == Visited(layer, todo)[k := layer[k]]
    ensures LabelSources(Visited(layer, todo - {k}), source) == LabelSources(Visited(layer, todo), source)[LabelField(k) := source]
  {
    assert Visited(layer, todo - {k}).Keys == Visited(layer, todo).Keys + {k};
    assert LabelFields(Visited(layer, todo).Keys + {k}) == LabelFields(Visited(layer, todo).Keys) + {LabelField(k)};
  }

  lemma AssignAfter<V>(m: map<string, V>, acc: map<string, V>, k: string, v: V)
    ensures (m + acc)[k := v] == m + acc[k := v]
  {
  }

  /** The repeated step of LoadConfig: when a source usably sets a value, take it and record the source. */
  method Override<T>(setting: Option<T>, current: T, provenance: Provenance, field: string, source: string)
    returns (value: T, provenance': Provenance)
    ensures value == Or(setting, current)
    ensures provenance' == provenance + One(setting.Some?, field, source)
  {
    value, provenance' := current, provenance;
    if setting.Some? {
      value := setting.value;
      provenance' := provenance'[field := source];
    }
  }

  /** Recording the five parts one after the other is recording the whole layer. */
  lemma RecordLayer(p: Provenance, l: Layer)
    ensures
      var p1 := p + One(l.othelaURL.Some?, "othelaURL", l.sources.othelaURL);
      var p2 := p1 + One(l.nodeID.Some?, "nodeID", l.sources.nodeID);
      var p3 := p2 + One(l.pollInterval.Some?, "pollInterval", l.sources.pollInterval);
      var p4 := p3 + One(l.workspaceDir.Some?, "workspaceDir", l.sources.workspaceDir);
      p4 + LabelSources(l.labels, l.sources.labels) == p + LayerSources(l)
  {
    var o1, o2 := One(l.othelaURL.Some?, "othelaURL", l.sources.othelaURL), One(l.nodeID.Some?, "nodeID", l.sources.nodeID);
    var o3 := One(l.pollInterval.Some?, "pollInterval", l.sources.pollInterval);
    var o4 := One(l.workspaceDir.Some?, "workspaceDir", l.sources.workspaceDir);
    MapAddAssociative(p, o1, o2);
    MapAddAssociative(p, o1 + o2, o3);
    MapAddAssociative(p, o1 + o2 + o3, o4);
    MapAddAssociative(p, o1 + o2 + o3 + o4, LabelSources(l.labels, l.sources.labels));
  }

  /** The file block records the directory before the interval; the fields are different, so the order is immaterial. */
  lemma RecordFileBlock(p: Provenance, l: Layer)
    ensures
      var p1 := p + One(l.othelaURL.Some?, "othelaURL", l.sources.othelaURL);
      var p2 := p1 + One(l.nodeID.Some?, "nodeID", l.sources.nodeID);
      var p3 := p2 + One(l.workspaceDir.Some?, "workspaceDir", l.sources.workspaceDir);
      var p4 := p3 + One(l.pollInterval.Some?, "pollInterval", l.sources.pollInterval);
      p4 + LabelSources(l.labels, l.sources.labels) == p + LayerSources(l)
  {
    RecordLayer(p, l);
    var p2 := p + One(l.othelaURL.Some?, "othelaURL", l.sources.othelaURL) + One(l.nodeID.Some?, "nodeID", l.sources.nodeID);
    OnesCommute(p2, l.workspaceDir.Some?, "workspaceDir", l.sources.workspaceDir,
                l.pollInterval.Some?, "pollInterval", l.sources.pollInterval);
  }

  lemma OnesCommute(p: Provenance, a: bool, f: string, s: string, b: bool, g: string, t: string)
    requires f != g
    ensures p + One(a, f, s) + One(b, g, t) == p + One(b, g, t) + One(a, f, s)
  {
  }

  /** The environment block and the command-line block of LoadConfig, which differ only in the names they record. */
  method ApplyText(parse: DurationParser, config: Configuration, provenance: Provenance, s: TextSettings, names: Sources)
    returns (config': Configuration, provenance': Provenance)
    ensures config' == ApplyLayer(config, TextLayer(parse, s, names))
    ensures provenance' == provenance + LayerSources(TextLayer(parse, s, names))
    ensures config'.othelaURL == (if s.othelaURL != "" then s.othelaURL else config.othelaURL)
    ensures config'.nodeID == (if s.nodeID != "" then s.nodeID else config.nodeID)
    ensures config'.pollInterval ==
      if s.pollInterval != "" && parse(s.pollInterval).Some? then parse(s.pollInterval).value else config.pollInterval
    ensures config'.workspaceDir == (if s.workspaceDir != "" then s.workspaceDir else config.workspaceDir)
    ensures config'.labels == if s.labels != "" then config.labels + LabelsIn(s.labels) else config.labels
  {
    RecordLayer(provenance, TextLayer(parse, s, names));
    var url, p1 := Override(NonEmpty(s.othelaURL), config.othelaURL, provenance, "othelaURL", names.othelaURL);
    var id, p2 := Override(NonEmpty(s.nodeID), config.nodeID, p1, "nodeID", names.nodeID);
    var interval, p3 := Override(Interval(parse, s.pollInterval), config.pollInterval, p2, "pollInterval", names.pollInterval);
    var dir, p4 := Override(NonEmpty(s.workspaceDir), config.workspaceDir, p3, "workspaceDir", names.workspaceDir);
    var parsedLabels := map[];
    if s.labels != "" {
      parsedLabels := ParseLabels(s.labels);
    }
    var labels, p5 := OverlayLabels(config.labels, p4, parsedLabels, names.labels);
    return Configuration(url, id, interval, dir, labels), p5;
  }

  /** The file block; it stops at a malformed duration, which is the only one that is an error. */
  method ApplyFile(parse: DurationParser, config: Configuration, provenance: Provenance, raw: RawFile)
    returns (config': Configuration, provenance': Provenance, ok: bool)
    ensures ok <==> !BadInterval(parse, raw)
    ensures config' == ApplyLayer(config, FileBlockLayer(parse, raw))
    ensures provenance' == provenance + LayerSources(FileBlockLayer(parse, raw))
  {
    var url, p1 := Override(NonEmpty(raw.othelaURL), config.othelaURL, provenance, "othelaURL", SOURCE_CONFIG_FILE);
    var id, p2 := Override(NonEmpty(raw.nodeID), config.nodeID, p1, "nodeID", SOURCE_CONFIG_FILE);
    var dir, p3 := Override(NonEmpty(raw.workspaceDir), config.workspaceDir, p2, "workspaceDir", SOURCE_CONFIG_FILE);
    RecordFileBlock(provenance, FileBlockLayer(parse, raw));
    if raw.pollInterval != "" && parse(raw.pollInterval).None? {
      NothingMoreRecorded(config.labels, p3, SOURCE_CONFIG_FILE);
      return Configuration(url, id, config.pollInterval, dir, config.labels), p3, false;
    }
    var interval, p4 := Override(Interval(parse, raw.pollInterval), config.pollInterval, p3, "pollInterval", SOURCE_CONFIG_FILE);
    var labels, p5 := OverlayLabels(config.labels, p4, raw.labels, SOURCE_CONFIG_FILE);
    return Configuration(url, id, interval, dir, labels), p5, true;
  }

  /** Without an interval and labels the last two steps change nothing. */
  lemma NothingMoreRecorded(labels: Labels, p: Provenance, source: string)
    ensures labels + map[] == labels
    ensures p + One(false, "pollInterval", source) + LabelSources(map[], source) == p
  {
  }

  function DefaultConfig(hostname: Option<string>): Configuration {
    Configuration(DEFAULT_URL, DefaultNodeID(hostname).0, DEFAULT_INTERVAL, DEFAULT_WORKSPACE, map[])
  }

  /** The configuration that the layers overlay to, before the URL is normalised. */
  function Applied(layers: seq<Layer>): Configuration {
    if layers == [] then Configuration("", "", 0, "", map[])
    else ApplyLayer(Applied(layers[..|layers| - 1]), layers[|layers| - 1])
  }

  function AllSources(layers: seq<Layer>): seq<Provenance> {
    seq(|layers|, i requires 0 <= i < |layers| => LayerSources(layers[i]))
  }

  /** What LoadConfig resolves to when the file is in order. */
  ghost predicate Resolved(parse: DurationParser, inputs: Inputs, config: Configuration, provenance: Provenance) {
    var layers := Layers(parse, inputs);
    var merged := Applied(layers);
    && config == merged.(othelaURL := NormalizeURL(merged.othelaURL))
    && provenance == Overlay(AllSources(layers))
  }

  /** These layers, and nothing else, have been applied. */
  ghost predicate Stage(layers: seq<Layer>, c: Configuration, p: Provenance) {
    c == Applied(layers) && p == Overlay(AllSources(layers))
  }

  lemma NextStage(layers: seq<Layer>, l: Layer, c: Configuration, p: Provenance)
    requires Stage(layers, c, p)
    ensures Stage(layers + [l], ApplyLayer(c, l), p + LayerSources(l))
  {
    assert (layers + [l])[..|layers|] == layers;
    assert AllSources(layers + [l])[..|layers|] == AllSources(layers);
  }

  /** Defaults, then the environment. */
  function AmbientLayers(parse: DurationParser, inputs: Inputs): seq<Layer> {
    [DefaultLayer(inputs.hostname)] + [TextLayer(parse, inputs.env, ENV_SOURCES)]
  }

  /** What the file adds: nothing when it cannot be read or decoded, and no labels when its duration is malformed. */
  function FileLayers(parse: DurationParser, inputs: Inputs): seq<Layer> {
    if inputs.configPath == "" then [FileLayer(parse, NO_FILE)]
    else if inputs.file.Decoded? then [FileBlockLayer(parse, inputs.file.raw)]
    else []
  }

  lemma LayersInOrder(parse: DurationParser, inputs: Inputs)
    requires FileFault(parse, inputs).None?
    ensures Layers(parse, inputs)
         == AmbientLayers(parse, inputs) + FileLayers(parse, inputs) + [TextLayer(parse, inputs.cli, CLI_SOURCES)]
  {
  }

  lemma AmbientStage(parse: DurationParser, inputs: Inputs)
    ensures
      var env := TextLayer(parse, inputs.env, ENV_SOURCES);
      Stage(AmbientLayers(parse, inputs), ApplyLayer(DefaultConfig(inputs.hostname), env),
            DefaultProvenance(inputs.hostname) + LayerSources(env))
  {
    DefaultsAreFirstLayer(inputs.hostname);
    NextStage([], DefaultLayer(inputs.hostname), Configuration("", "", 0, "", map[]), map[]);
    assert [] + [DefaultLayer(inputs.hostname)] == [DefaultLayer(inputs.hostname)];
    NextStage([DefaultLayer(inputs.hostname)], TextLayer(parse, inputs.env, ENV_SOURCES),
              DefaultConfig(inputs.hostname), DefaultProvenance(inputs.hostname));
  }

  /** Defaults, then the environment. */
  method LoadAmbient(parse: DurationParser, inputs: Inputs) returns (config: Configuration, provenance: Provenance)
    ensures Stage(AmbientLayers(parse, inputs), config, provenance)
  {
    AmbientStage(parse, inputs);
    config, provenance := DefaultConfig(inputs.hostname), DefaultProvenance(inputs.hostname);
    config, provenance := ApplyText(parse, config, provenance, inputs.env, ENV_SOURCES);
  }

  /** Reading the file, when one is given, and applying it. */
  method ApplyConfigFile(parse: DurationParser, inputs: Inputs, config: Configuration, provenance: Provenance)
    returns (config': Configuration, provenance': Provenance, fault: Option<ConfigError>)
    requires Stage(AmbientLayers(parse, inputs), config, provenance)
    ensures fault == FileFault(parse, inputs)
    ensures Stage(AmbientLayers(parse, inputs) + FileLayers(parse, inputs), config', provenance')
  {
    ghost var ambient := AmbientLayers(parse, inputs);
    if inputs.configPath == "" {
      NoFileChangesNothing(parse, config, provenance);
      NextStage(ambient, FileLayer(parse, NO_FILE), config, provenance);
      return config, provenance, None;
    }
    assert ambient + [] == ambient;
    match inputs.file {
      case Unreadable => return config, provenance, Some(CannotRead);
      case Malformed => return config, provenance, Some(CannotParse);
      case Decoded(raw) =>
        NextStage(ambient, FileBlockLayer(parse, raw), config, provenance);
        var ok: bool;
        config', provenance', ok := ApplyFile(parse, config, provenance, raw);
        fault := if ok then None else Some(BadPollInterval);
    }
  }

  lemma LastStage(parse: DurationParser, inputs: Inputs, c: Configuration, p: Provenance)
    requires FileFault(parse, inputs).None?
    requires Stage(AmbientLayers(parse, inputs) + FileLayers(parse, inputs), c, p)
    ensures
      var cli := TextLayer(parse, inputs.cli, CLI_SOURCES);
      var c' := ApplyLayer(c, cli);
      Resolved(parse, inputs, c'.(othelaURL := NormalizeURL(c'.othelaURL)), p + LayerSources(cli))
  {
    LayersInOrder(parse, inputs);
    NextStage(AmbientLayers(parse, inputs) + FileLayers(parse, inputs), TextLayer(parse, inputs.cli, CLI_SOURCES), c, p);
  }

  /** Command-line flags, then the form of the URL. */
  method ApplyFlags(parse: DurationParser, inputs: Inputs, config: Configuration, provenance: Provenance)
    returns (config': Configuration, provenance': Provenance)
    requires FileFault(parse, inputs).None?
    requires Stage(AmbientLayers(parse, inputs) + FileLayers(parse, inputs), config, provenance)
    ensures Resolved(parse, inputs, config', provenance')
  {
    LastStage(parse, inputs, config, provenance);
    config', provenance' := ApplyText(parse, config, provenance, inputs.cli, CLI_SOURCES);
    config' := config'.(othelaURL := NormalizeURL(config'.othelaURL));
  }

  lemma NoFileChangesNothing(parse: DurationParser, c: Configuration, p: Provenance)
    ensures ApplyLayer(c, FileLayer(parse, NO_FILE)) == c
    ensures p + LayerSources(FileLayer(parse, NO_FILE)) == p
  {
  }

  function DefaultProvenance(hostname: Option<string>): Provenance {
    map[
      "othelaURL" := SOURCE_DEFAULT,
      "nodeID" := if DefaultNodeID(hostname).1 then SOURCE_DEFAULT_HOSTNAME else SOURCE_DEFAULT,
      "pollInterval" := SOURCE_DEFAULT,
      "workspaceDir" := SOURCE_DEFAULT]
  }

  lemma FourOnes(f1: string, s1: string, f2: string, s2: string, f3: string, s3: string, f4: string, s4: string, none: Provenance)
    requires none == map[]
    ensures map[] + (map[f1 := s1] + map[f2 := s2] + map[f3 := s3] + map[f4 := s4] + none)
         == map[f1 := s1, f2 := s2, f3 := s3, f4 := s4]
  {
  }

  lemma DefaultsAreFirstLayer(hostname: Option<string>)
    ensures ApplyLayer(Configuration("", "", 0, "", map[]), DefaultLayer(hostname)) == DefaultConfig(hostname)
    ensures map[] + LayerSources(DefaultLayer(hostname)) == DefaultProvenance(hostname)
  {
    var l := DefaultLayer(hostname);
    assert LabelSources(l.labels, l.sources.labels) == map[];
    FourOnes("othelaURL", SOURCE_DEFAULT, "nodeID", l.sources.nodeID, "pollInterval", SOURCE_DEFAULT,
             "workspaceDir", SOURCE_DEFAULT, LabelSources(l.labels, l.sources.labels));
  }}
