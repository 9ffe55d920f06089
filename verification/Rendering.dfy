/**
 cmd/agent/main.go, configFields and FormatConfig: the resolved configuration as an ordered, aligned block.
 Widths are measured in bytes (len) while fmt pads in characters; the columns still line up, in characters.
 */
module Rendering {
  import opened Basics
  import opened AgentConfig
  import opened ConfigPrecedence

  // ---------------------------------------------------------------- string order

  /** Go's `<` on strings; for valid UTF-8 byte order and character order agree. */
  predicate Less(a: string, b: string) {
    if b == "" then false
    else if a == "" then true
    else a[0] < b[0] || (a[0] == b[0] && Less(a[1..], b[1..]))
  }

  lemma {:induction false} LessTotal(a: string, b: string)
    ensures Less(a, b) || a == b || Less(b, a)
    ensures !(Less(a, b) && (a == b || Less(b, a)))
  {
    if a != "" && b != "" && a[0] == b[0] {
      LessTotal(a[1..], b[1..]);
      assert a == [a[0]] + a[1..] && b == [b[0]] + b[1..];
    }
  }

  /** Texts are compared at the first character in which they differ; a proper prefix comes first. */
  lemma {:induction false} LessIff(a: string, b: string) returns (i: nat)
    ensures i <= |a| && i <= |b| && a[..i] == b[..i]
    ensures (i == |a| || i == |b|) || a[i] != b[i]
    ensures Less(a, b) <==> if i < |a| && i < |b| then a[i] < b[i] else |a| < |b|
  {
    if a == "" || b == "" || a[0] != b[0] {
      i := 0;
    } else {
      i := LessIff(a[1..], b[1..]);
      assert a[..i + 1] == [a[0]] + a[1..][..i] && b[..i + 1] == [b[0]] + b[1..][..i];
      i := i + 1;
    }
  }

  lemma {:induction false} LessTransitive(a: string, b: string, c: string)
    requires Less(a, b) && Less(b, c)
    ensures Less(a, c)
  {
    if a != "" && a[0] == b[0] == c[0] {
      LessTransitive(a[1..], b[1..], c[1..]);
    }
  }

  ghost predicate StrictlySorted(keys: seq<string>) {
    forall i, j :: 0 <= i < j < |keys| ==> Less(keys[i], keys[j])
  }

  lemma HeadIsIn(keys: seq<string>)
    requires keys != []
    ensures keys[0] in keys
  {
  }

  /** A set of strings has one strictly increasing listing. */
  lemma {:induction false} SortedListingUnique(a: seq<string>, b: seq<string>)
    requires StrictlySorted(a) && StrictlySorted(b)
    requires forall k :: k in a <==> k in b
    ensures a == b
  {
    if a == [] {
      if b != [] {
        HeadIsIn(b);
      }
    } else {
      assert a[0] in b;
      assert b[0] in a;
      assert a[0] == b[0] by {
        LessTotal(a[0], b[0]);
      }
      forall k
        ensures k in a[1..] <==> k in b[1..]
      {
        LessTotal(k, k);
        assert k in a <==> k == a[0] || k in a[1..];
        assert k in b <==> k == b[0] || k in b[1..];
      }
      SortedListingUnique(a[1..], b[1..]);
      assert a == [a[0]] + a[1..] && b == [b[0]] + b[1..];
    }
  }

  function Insert(keys: seq<string>, k: string): seq<string> {
    if keys == [] || Less(k, keys[0]) then [k] + keys else [keys[0]] + Insert(keys[1..], k)
  }

  lemma {:induction false} InsertKeepsSorted(keys: seq<string>, k: string)
    requires StrictlySorted(keys) && k !in keys
    ensures StrictlySorted(Insert(keys, k))
    ensures forall x :: x in Insert(keys, k) <==> x == k || x in keys
  {
    if keys != [] {
      if Less(k, keys[0]) {
        forall j | 0 < j < |keys|
          ensures Less(k, keys[j])
        {
          LessTransitive(k, keys[0], keys[j]);
        }
      } else {
        var rest := keys[1..];
        assert forall x :: x in keys <==> x == keys[0] || x in rest;
        InsertKeepsSorted(rest, k);
        LessTotal(k, keys[0]);
        assert forall x :: x in Insert(rest, k) ==> Less(keys[0], x);
      }
    }
  }

  /** sort.Strings on distinct keys. */
  method SortStrings(keys: seq<string>) returns (sorted: seq<string>)
    requires forall i, j :: 0 <= i < j < |keys| ==> keys[i] != keys[j]
    ensures StrictlySorted(sorted)
    ensures forall k :: k in sorted <==> k in keys
  {
    sorted := [];
    for i := 0 to |keys|
      invariant StrictlySorted(sorted)
      invariant forall k :: k in sorted <==> k in keys[..i]
    {
      InsertKeepsSorted(sorted, keys[i]);
      sorted := Insert(sorted, keys[i]);
    }
  }

  // ---------------------------------------------------------------- configFields

  type Row = (string, string)

  /** `show` renders a duration. */
  function FixedRows(config: Configuration, show: int -> string): seq<Row> {
    [ ("othelaURL", config.othelaURL), ("nodeID", config.nodeID),
      ("pollInterval", show(config.pollInterval)), ("workspaceDir", config.workspaceDir) ]
  }

  function LabelRows(labels: Labels, keys: seq<string>): seq<Row>
    requires forall k :: k in keys ==> k in labels
  {
    seq(|keys|, i requires 0 <= i < |keys| => assert keys[i] in keys; (LabelField(keys[i]), labels[keys[i]]))
  }

  /** The four fields, then a row for each of `keys`, which are the label keys in strictly increasing order. */
  ghost predicate RowsFor(config: Configuration, show: int -> string, keys: seq<string>, rows: seq<Row>) {
    && StrictlySorted(keys)
    && (forall k :: k in keys <==> k in config.labels)
    && rows == FixedRows(config, show) + LabelRows(config.labels, keys)
  }

  /** The four fields, then every label once, in strictly increasing key order. */
  ghost predicate IsRendering(config: Configuration, show: int -> string, rows: seq<Row>) {
    exists keys: seq<string> :: RowsFor(config, show, keys, rows)
  }

  /** A configuration has one rendering, so two runs or two nodes can be compared line by line. */
  lemma RenderingIsCanonical(config: Configuration, show: int -> string, rows1: seq<Row>, rows2: seq<Row>)
    requires IsRendering(config, show, rows1) && IsRendering(config, show, rows2)
    ensures rows1 == rows2
  {
    var k1 :| RowsFor(config, show, k1, rows1);
    var k2 :| RowsFor(config, show, k2, rows2);
    SortedListingUnique(k1, k2);
  }

  /** The rows in full. */
  lemma RowsAre(config: Configuration, show: int -> string, rows: seq<Row>) returns (keys: seq<string>)
    requires IsRendering(config, show, rows)
    ensures |rows| == 4 + |keys|
    ensures rows[0] == ("othelaURL", config.othelaURL) && rows[1] == ("nodeID", config.nodeID)
    ensures rows[2] == ("pollInterval", show(config.pollInterval)) && rows[3] == ("workspaceDir", config.workspaceDir)
    ensures StrictlySorted(keys) && forall k :: k in keys <==> k in config.labels
    ensures forall j :: 0 <= j < |keys| ==>
      keys[j] in config.labels && rows[4 + j] == ("labels." + keys[j], config.labels[keys[j]])
  {
    keys :| RowsFor(config, show, keys, rows);
    forall j | 0 <= j < |keys|
      ensures keys[j] in config.labels && rows[4 + j] == ("labels." + keys[j], config.labels[keys[j]])
    {
      assert keys[j] in keys;
      assert rows[4 + j] == LabelRows(config.labels, keys)[j];
    }
  }

  method ConfigFields(config: Configuration, show: int -> string) returns (rows: seq<Row>)
    ensures IsRendering(config, show, rows)
  {
    rows := FixedRows(config, show);
    var labelKeys: seq<string> := [];
    var todo := config.labels.Keys;
    while todo != {}
      invariant todo <= config.labels.Keys
      invariant forall k :: k in labelKeys <==> k in config.labels && k !in todo
      invariant forall i, j :: 0 <= i < j < |labelKeys| ==> labelKeys[i] != labelKeys[j]
      decreases |todo|
    {
      var k :| k in todo;
      assert k !in labelKeys;
      labelKeys := labelKeys + [k];
      todo := todo - {k};
    }
    var sorted := SortStrings(labelKeys);
    for i := 0 to |sorted|
      invariant rows == FixedRows(config, show) + LabelRows(config.labels, sorted)[..i]
    {
      assert sorted[i] in sorted;
      rows := rows + [(LabelField(sorted[i]), config.labels[sorted[i]])];
    }
    assert LabelRows(config.labels, sorted)[..|sorted|] == LabelRows(config.labels, sorted);
    assert RowsFor(config, show, sorted, rows);
  }

  // ---------------------------------------------------------------- FormatConfig

  /** Go's len: the bytes of a string in UTF-8. */
  function ByteLen(s: string): (n: nat)
    ensures |s| <= n
  {
    if s == "" then 0
    else
      var u := s[0] as int;
      (if u < 0x80 then 1 else if u < 0x800 then 2 else if u < 0x1_0000 then 3 else 4) + ByteLen(s[1..])
  }

  /** Bytes are counted character by character: one for ASCII, and at most four. */
  lemma {:induction false} ByteLenIs(s: string, c: char)
    ensures ByteLen("") == 0
    ensures ByteLen(s + [c]) == ByteLen(s)
      + (if c < '\U{80}' then 1 else if c < '\U{800}' then 2 else if c < '\U{10000}' then 3 else 4)
  {
    if s != "" {
      ByteLenIs(s[1..], c);
      assert (s + [c])[1..] == s[1..] + [c];
    }
  }

  function Max(a: nat, b: nat): nat {
    if b > a then b else a
  }

  function NameWidth(rows: seq<Row>): nat {
    if rows == [] then 0 else Max(NameWidth(rows[..|rows| - 1]), ByteLen(rows[|rows| - 1].0))
  }

  function ValueWidth(rows: seq<Row>): nat {
    if rows == [] then 0 else Max(ValueWidth(rows[..|rows| - 1]), ByteLen(rows[|rows| - 1].1))
  }

  function Spaces(n: nat): string {
    seq(n, _ => ' ')
  }

  /** The fmt verb `%-*s`: pads on the right up to `width` characters. */
  function Pad(s: string, width: nat): string {
    if |s| < width then s + Spaces(width - |s|) else s
  }

  function ReportedSource(provenance: Provenance, name: string): string {
    var source := Lookup(provenance, name);
    if source == "" then SOURCE_DEFAULT else source
  }

  function Line(row: Row, nameWidth: nat, valueWidth: nat, source: string): string {
    Pad(row.0, nameWidth) + " = " + Pad(row.1, valueWidth) + "  source=" + source + "\n"
  }

  /** The line that is printed for a row. */
  function LineFor(row: Row, w: nat, v: nat, p: Provenance): string {
    Line(row, w, v, ReportedSource(p, row.0))
  }

  function LinesOf(rows: seq<Row>, w: nat, v: nat, p: Provenance): seq<string> {
    seq(|rows|, i requires 0 <= i < |rows| => LineFor(rows[i], w, v, p))
  }

  function Flatten(texts: seq<string>): string {
    if texts == [] then "" else Flatten(texts[..|texts| - 1]) + texts[|texts| - 1]
  }

  function Lines(rows: seq<Row>, w: nat, v: nat, p: Provenance): string {
    Flatten(LinesOf(rows, w, v, p))
  }

  lemma FlattenNext(texts: seq<string>, i: nat)
    requires i < |texts|
    ensures Flatten(texts[..i + 1]) == Flatten(texts[..i]) + texts[i]
  {
    assert texts[..i + 1][..i] == texts[..i];
  }

  /** The columns are as wide as their longest entry, in bytes, and no wider. */
  lemma {:induction false} WidthsAreLeast(rows: seq<Row>)
    ensures forall i :: 0 <= i < |rows| ==> ByteLen(rows[i].0) <= NameWidth(rows) && ByteLen(rows[i].1) <= ValueWidth(rows)
    ensures rows != [] ==> exists i :: 0 <= i < |rows| && ByteLen(rows[i].0) == NameWidth(rows)
    ensures rows != [] ==> exists i :: 0 <= i < |rows| && ByteLen(rows[i].1) == ValueWidth(rows)
  {
    if rows != [] {
      var n := |rows| - 1;
      WidthsAreLeast(rows[..n]);
      assert ByteLen(rows[n].0) == NameWidth(rows) || NameWidth(rows) == NameWidth(rows[..n]);
      assert ByteLen(rows[n].1) == ValueWidth(rows) || ValueWidth(rows) == ValueWidth(rows[..n]);
      if n > 0 {
        var i :| 0 <= i < n && ByteLen(rows[..n][i].0) == NameWidth(rows[..n]);
        var j :| 0 <= j < n && ByteLen(rows[..n][j].1) == ValueWidth(rows[..n]);
        assert rows[i] == rows[..n][i] && rows[j] == rows[..n][j];
      }
    }
  }

  /** The width loop. */
  method Widths(rows: seq<Row>) returns (nameWidth: nat, valueWidth: nat)
    ensures nameWidth == NameWidth(rows) && valueWidth == ValueWidth(rows)
  {
    nameWidth, valueWidth := 0, 0;
    for i := 0 to |rows|
      invariant nameWidth == NameWidth(rows[..i]) && valueWidth == ValueWidth(rows[..i])
    {
      assert rows[..i + 1][..i] == rows[..i];
      if ByteLen(rows[i].0) > nameWidth {
        nameWidth := ByteLen(rows[i].0);
      }
      if ByteLen(rows[i].1) > valueWidth {
        valueWidth := ByteLen(rows[i].1);
      }
    }
    assert rows[..|rows|] == rows;
  }

  /** The printing loop. */
  method PrintLines(rows: seq<Row>, nameWidth: nat, valueWidth: nat, provenance: Provenance) returns (text: string)
    ensures text == Lines(rows, nameWidth, valueWidth, provenance)
  {
    text := "";
    ghost var lines := LinesOf(rows, nameWidth, valueWidth, provenance);
    for i := 0 to |rows|
      invariant text == Flatten(lines[..i])
    {
      FlattenNext(lines, i);
      var source := Lookup(provenance, rows[i].0);
      if source == "" {
        source := SOURCE_DEFAULT;
      }
      var line := Line(rows[i], nameWidth, valueWidth, source);
      assert line == LineFor(rows[i], nameWidth, valueWidth, provenance) == lines[i];
      text := text + line;
    }
    assert lines[..|rows|] == lines;
  }

  /** `text` is the canonical rows of the configuration, one line each, at the widths they need. */
  ghost predicate IsText(config: Configuration, provenance: Provenance, show: int -> string, text: string) {
    exists rows ::
      IsRendering(config, show, rows) && text == Lines(rows, NameWidth(rows), ValueWidth(rows), provenance)
  }

  method FormatConfig(config: Configuration, provenance: Provenance, show: int -> string) returns (text: string)
    ensures IsText(config, provenance, show, text)
  {
    var rows := ConfigFields(config, show);
    var nameWidth, valueWidth := Widths(rows);
    text := PrintLines(rows, nameWidth, valueWidth, provenance);
  }

  lemma {:induction false} WidthsCover(rows: seq<Row>, i: nat)
    requires i < |rows|
    ensures |rows[i].0| <= NameWidth(rows) && |rows[i].1| <= ValueWidth(rows)
  {
    if i < |rows| - 1 {
      WidthsCover(rows[..|rows| - 1], i);
    }
  }

  lemma LineSlices(name: string, value: string, source: string, w: nat, v: nat)
    requires |name| == w && |value| == v
    ensures
      var line := name + " = " + value + "  source=" + source + "\n";
      && |line| == w + 3 + v + 9 + |source| + 1
      && line[..w] == name && line[w..w + 3] == " = " && line[w + 3..w + 3 + v] == value
      && line[w + 3 + v..w + 12 + v] == "  source=" && line[w + 12 + v..] == source + "\n"
  {
  }

  lemma Padded(s: string, width: nat)
    requires |s| <= width
    ensures Pad(s, width) == s + Spaces(width - |s|) && |Pad(s, width)| == width
  {
  }

  /** On every line the value starts, and the source is named, in the same column. */
  lemma ColumnsLineUp(rows: seq<Row>, i: nat, source: string)
    requires i < |rows|
    ensures
      var w, v := NameWidth(rows), ValueWidth(rows);
      var line := Line(rows[i], w, v, source);
      && |line| == w + 3 + v + 9 + |source| + 1
      && |rows[i].0| <= w && line[..w] == rows[i].0 + Spaces(w - |rows[i].0|)
      && line[w..w + 3] == " = "
      && |rows[i].1| <= v && line[w + 3..w + 3 + v] == rows[i].1 + Spaces(v - |rows[i].1|)
      && line[w + 3 + v..w + 12 + v] == "  source="
      && line[w + 12 + v..] == source + "\n"
  {
    WidthsCover(rows, i);
    var w, v := NameWidth(rows), ValueWidth(rows);
    Padded(rows[i].0, w);
    Padded(rows[i].1, v);
    LineSlices(Pad(rows[i].0, w), Pad(rows[i].1, v), source, w, v);
  }

  lemma RowAt(config: Configuration, show: int -> string, keys: seq<string>, i: nat)
    requires forall k :: k in keys ==> k in config.labels
    requires i < 4 + |keys|
    ensures (FixedRows(config, show) + LabelRows(config.labels, keys))[i]
         == if i < 4 then FixedRows(config, show)[i] else LabelRows(config.labels, keys)[i - 4]
  {
  }

  lemma LabelRowShowsField(config: Configuration, keys: seq<string>, j: nat) returns (f: Field)
    requires forall k :: k in keys ==> k in config.labels
    requires j < |keys|
    ensures LabelRows(config.labels, keys)[j].0 == FieldName(f) && IsResolved(config, f)
  {
    assert keys[j] in keys;
    f := LabelOf(keys[j]);
  }

  lemma RowOfKeysShowsField(config: Configuration, show: int -> string, keys: seq<string>, i: nat) returns (f: Field)
    requires forall k :: k in keys ==> k in config.labels
    requires i < 4 + |keys|
    ensures (FixedRows(config, show) + LabelRows(config.labels, keys))[i].0 == FieldName(f) && IsResolved(config, f)
  {
    RowAt(config, show, keys, i);
    if i < 4 {
      f := FixedRowShowsField(config, show, i);
    } else {
      f := LabelRowShowsField(config, keys, i - 4);
    }
  }

  /** Every row shows a resolved field. */
  lemma RowShowsField(config: Configuration, show: int -> string, rows: seq<Row>, i: nat) returns (f: Field)
    requires IsRendering(config, show, rows) && i < |rows|
    ensures rows[i].0 == FieldName(f) && IsResolved(config, f)
  {
    var keys :| RowsFor(config, show, keys, rows);
    f := RowOfKeysShowsField(config, show, keys, i);
  }

  lemma FixedRowShowsField(config: Configuration, show: int -> string, i: nat) returns (f: Field)
    requires i < 4
    ensures FixedRows(config, show)[i].0 == FieldName(f) && !f.LabelOf?
  {
    if i == 0 {
      f := URLField;
    } else if i == 1 {
      f := NodeIDField;
    } else if i == 2 {
      f := IntervalField;
    } else {
      f := DirField;
    }
  }

  /** For a configuration that was loaded, the printed source is always the recorded one. */
  lemma DefaultIsNeverSubstituted(parse: DurationParser, inputs: Inputs, config: Configuration, provenance: Provenance,
                                  show: int -> string, rows: seq<Row>, i: nat)
    requires Resolved(parse, inputs, config, provenance) && IsRendering(config, show, rows) && i < |rows|
    ensures rows[i].0 in provenance && ReportedSource(provenance, rows[i].0) == provenance[rows[i].0]
  {
    var f := RowShowsField(config, show, rows, i);
    ProvenanceIsNamed(parse, inputs, config, provenance, f);
  }

  // ---------------------------------------------------------------- the printed text

  lemma LinesDependOnSources(rows: seq<Row>, w: nat, v: nat, p: Provenance, q: Provenance)
    requires forall i :: 0 <= i < |rows| ==> ReportedSource(p, rows[i].0) == ReportedSource(q, rows[i].0)
    ensures Lines(rows, w, v, p) == Lines(rows, w, v, q)
  {
    assert LinesOf(rows, w, v, p) == LinesOf(rows, w, v, q);
  }

  /**
   The printed text is a function of the configuration and of the sources reported for its resolved fields:
   neither an iteration order nor any other entry of the provenance map shows in it.
   */
  lemma TextIsCanonical(config: Configuration, show: int -> string, p: Provenance, q: Provenance, text1: string, text2: string)
    requires IsText(config, p, show, text1) && IsText(config, q, show, text2)
    requires forall f :: IsResolved(config, f) ==> ReportedSource(p, FieldName(f)) == ReportedSource(q, FieldName(f))
    ensures text1 == text2
  {
    var rows: seq<Row> :| IsRendering(config, show, rows) && text1 == Lines(rows, NameWidth(rows), ValueWidth(rows), p);
    var rows2: seq<Row> :| IsRendering(config, show, rows2) && text2 == Lines(rows2, NameWidth(rows2), ValueWidth(rows2), q);
    RenderingIsCanonical(config, show, rows, rows2);
    forall i | 0 <= i < |rows|
      ensures ReportedSource(p, rows[i].0) == ReportedSource(q, rows[i].0)
    {
      var f := RowShowsField(config, show, rows, i);
    }
    LinesDependOnSources(rows, NameWidth(rows), ValueWidth(rows), p, q);
  }

  /** A text follows those before it; after the last one there is nothing. */
  lemma {:induction false} TextInFlatten(texts: seq<string>, i: nat) returns (after: string)
    requires i < |texts|
    ensures Flatten(texts) == Flatten(texts[..i]) + texts[i] + after
    ensures i == |texts| - 1 ==> after == ""
  {
    var n := |texts| - 1;
    if i == n {
      after := "";
    } else {
      after := TextInFlatten(texts[..n], i);
      assert texts[..n][..i] == texts[..i];
      after := after + texts[n];
    }
  }

  /** A row's line follows those of the rows before it; after the last row there is nothing. */
  lemma LineInLines(rows: seq<Row>, i: nat, w: nat, v: nat, p: Provenance) returns (after: string)
    requires i < |rows|
    ensures Lines(rows, w, v, p) == Lines(rows[..i], w, v, p) + LineFor(rows[i], w, v, p) + after
    ensures i == |rows| - 1 ==> after == ""
  {
    after := TextInFlatten(LinesOf(rows, w, v, p), i);
    assert LinesOf(rows, w, v, p)[..i] == LinesOf(rows[..i], w, v, p);
  }

  lemma FixedFieldHasRow(config: Configuration, show: int -> string, f: Field) returns (i: nat)
    requires !f.LabelOf?
    ensures i < 4 && FixedRows(config, show)[i].0 == FieldName(f)
    ensures FixedRows(config, show)[i].1 == ShownValue(config, show, f)
  {
    i := match f case URLField => 0 case NodeIDField => 1 case IntervalField => 2 case DirField => 3;
  }

  lemma LabelHasRow(config: Configuration, show: int -> string, keys: seq<string>, k: string) returns (j: nat)
    requires forall x :: x in keys ==> x in config.labels
    requires k in keys
    ensures j < |keys| && LabelRows(config.labels, keys)[j].0 == FieldName(LabelOf(k))
    ensures LabelRows(config.labels, keys)[j].1 == ShownValue(config, show, LabelOf(k))
  {
    j :| j < |keys| && keys[j] == k;
  }

  lemma FieldHasRowOfKeys(config: Configuration, show: int -> string, keys: seq<string>, f: Field) returns (i: nat)
    requires forall k :: k in keys <==> k in config.labels
    requires IsResolved(config, f)
    ensures i < 4 + |keys|
    ensures
      var row := (FixedRows(config, show) + LabelRows(config.labels, keys))[i];
      row.0 == FieldName(f) && row.1 == ShownValue(config, show, f)
  {
    if f.LabelOf? {
      var j := LabelHasRow(config, show, keys, f.key);
      i := 4 + j;
    } else {
      i := FixedFieldHasRow(config, show, f);
    }
    RowAt(config, show, keys, i);
  }

  /** Every resolved field has a row, so its line is in the text. */
  lemma FieldHasRow(config: Configuration, show: int -> string, rows: seq<Row>, f: Field) returns (i: nat)
    requires IsRendering(config, show, rows) && IsResolved(config, f)
    ensures i < |rows| && rows[i].0 == FieldName(f)
    ensures rows[i].1 == ShownValue(config, show, f)
  {
    var keys :| RowsFor(config, show, keys, rows);
    i := FieldHasRowOfKeys(config, show, keys, f);
  }

  function ShownValue(config: Configuration, show: int -> string, f: Field): string
    requires IsResolved(config, f)
  {
    match f
    case URLField => config.othelaURL
    case NodeIDField => config.nodeID
    case IntervalField => show(config.pollInterval)
    case DirField => config.workspaceDir
    case LabelOf(k) => config.labels[k]
  }

  /**
   In the text printed after a successful load every resolved field has its line: name, value and recorded source,
   the equals sign, the value and the source at columns common to all lines.
   */
  lemma TextShowsField(parse: DurationParser, inputs: Inputs, config: Configuration, provenance: Provenance,
                       show: int -> string, text: string, f: Field)
    returns (w: nat, v: nat, before: string, after: string)
    requires Resolved(parse, inputs, config, provenance) && IsText(config, provenance, show, text) && IsResolved(config, f)
    ensures FieldName(f) in provenance
    ensures |FieldName(f)| <= w && |ShownValue(config, show, f)| <= v
    ensures exists rows :: IsRendering(config, show, rows) && w == NameWidth(rows) && v == ValueWidth(rows)
    ensures text == before
      + FieldName(f) + Spaces(w - |FieldName(f)|) + " = "
      + ShownValue(config, show, f) + Spaces(v - |ShownValue(config, show, f)|)
      + "  source=" + provenance[FieldName(f)] + "\n" + after
  {
    var rows: seq<Row> :| IsRendering(config, show, rows) && text == Lines(rows, NameWidth(rows), ValueWidth(rows), provenance);
    w, v := NameWidth(rows), ValueWidth(rows);
    var i := FieldHasRow(config, show, rows, f);
    DefaultIsNeverSubstituted(parse, inputs, config, provenance, show, rows, i);
    WidthsCover(rows, i);
    before := Lines(rows[..i], w, v, provenance);
    after := LineInLines(rows, i, w, v, provenance);
    PaddedLine(rows[i], w, v, provenance[rows[i].0], before, after);
  }

  lemma PaddedLine(row: Row, w: nat, v: nat, source: string, before: string, after: string)
    requires |row.0| <= w && |row.1| <= v
    ensures before + Line(row, w, v, source) + after
         == before + row.0 + Spaces(w - |row.0|) + " = " + row.1 + Spaces(v - |row.1|) + "  source=" + source + "\n" + after
  {
    assert Pad(row.0, w) == row.0 + Spaces(w - |row.0|) && Pad(row.1, v) == row.1 + Spaces(v - |row.1|);
  }
}
