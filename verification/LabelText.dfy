/**
 cmd/agent/main.go, parseLabels: labels written as `k=v,k=v`. Strings are sequences of Unicode characters.
 */
module LabelText {
  import opened Basics

  // ---------------------------------------------------------------- the string functions used

  /** unicode.IsSpace */
  predicate IsSpace(c: char) {
    var u := c as int;
    || 0x09 <= u <= 0x0D || u == 0x20 || u == 0x85 || u == 0xA0 || u == 0x1680
    || 0x2000 <= u <= 0x200A || u == 0x2028 || u == 0x2029 || u == 0x202F || u == 0x205F || u == 0x3000
  }

  predicate Trimmed(s: string) {
    s != "" ==> !IsSpace(s[0]) && !IsSpace(s[|s| - 1])
  }

  function TrimLeft(s: string): string {
    if s != "" && IsSpace(s[0]) then TrimLeft(s[1..]) else s
  }

  function TrimRight(s: string): string {
    if s != "" && IsSpace(s[|s| - 1]) then TrimRight(s[..|s| - 1]) else s
  }

  /** strings.TrimSpace */
  function TrimSpace(s: string): string {
    TrimRight(TrimLeft(s))
  }

  lemma {:induction false} TrimLeftFacts(s: string)
    ensures TrimLeft(s) != "" ==> !IsSpace(TrimLeft(s)[0])
    ensures forall c :: c in TrimLeft(s) ==> c in s
  {
    if s != "" && IsSpace(s[0]) {
      TrimLeftFacts(s[1..]);
    }
  }

  lemma {:induction false} TrimRightFacts(s: string)
    ensures TrimRight(s) != "" ==> !IsSpace(TrimRight(s)[|TrimRight(s)| - 1])
    ensures TrimRight(s) <= s
  {
    if s != "" && IsSpace(s[|s| - 1]) {
      TrimRightFacts(s[..|s| - 1]);
    }
  }

  /** Trimming leaves a trimmed text made of characters of the original, and a trimmed text alone. */
  lemma TrimSpaceFacts(s: string)
    ensures Trimmed(TrimSpace(s))
    ensures forall c :: c in TrimSpace(s) ==> c in s
    ensures Trimmed(s) ==> TrimSpace(s) == s
  {
    TrimLeftFacts(s);
    TrimRightFacts(TrimLeft(s));
  }

  predicate AllSpace(s: string) {
    forall c :: c in s ==> IsSpace(c)
  }

  lemma Regroup(a: string, b: string, c: string)
    ensures a + (b + c) == (a + b) + c
  {
  }

  lemma {:induction false} TrimLeftCuts(s: string) returns (cut: string)
    ensures s == cut + TrimLeft(s) && AllSpace(cut)
  {
    if s != "" && IsSpace(s[0]) {
      var rest := TrimLeftCuts(s[1..]);
      cut := [s[0]] + rest;
      Regroup([s[0]], rest, TrimLeft(s[1..]));
      assert s == [s[0]] + s[1..];
    } else {
      cut := "";
    }
  }

  lemma {:induction false} TrimRightCuts(s: string) returns (cut: string)
    ensures s == TrimRight(s) + cut && AllSpace(cut)
  {
    var n := |s| - 1;
    if s != "" && IsSpace(s[n]) {
      var rest := TrimRightCuts(s[..n]);
      cut := rest + [s[n]];
      Regroup(TrimRight(s[..n]), rest, [s[n]]);
      assert s == s[..n] + [s[n]];
    } else {
      cut := "";
    }
  }

  /** Trimming cuts spaces off both ends and nothing else. */
  lemma TrimSpaceCuts(s: string) returns (left: string, right: string)
    ensures s == left + TrimSpace(s) + right && AllSpace(left) && AllSpace(right)
  {
    left := TrimLeftCuts(s);
    right := TrimRightCuts(TrimLeft(s));
  }

  function IndexOf(s: string, c: char): (i: nat)
    ensures i <= |s|
    ensures i < |s| ==> s[i] == c
    ensures forall j :: 0 <= j < i ==> s[j] != c
  {
    if s == "" || s[0] == c then 0 else 1 + IndexOf(s[1..], c)
  }

  /** strings.Split with a one-character separator. */
  function Split(s: string, sep: char): (parts: seq<string>)
    ensures |parts| >= 1
    ensures forall p :: p in parts ==> sep !in p
    decreases |s|
  {
    var i := IndexOf(s, sep);
    if i == |s| then [s] else [s[..i]] + Split(s[i + 1..], sep)
  }

  /** The pieces with the separator between them. */
  function Join(parts: seq<string>, sep: char): string
    requires |parts| >= 1
  {
    if |parts| == 1 then parts[0] else parts[0] + [sep] + Join(parts[1..], sep)
  }

  /** Splitting leaves nothing out: with its contract, that no piece holds a separator, this determines the pieces. */
  lemma {:induction false} SplitJoins(s: string, sep: char)
    ensures Join(Split(s, sep), sep) == s
    decreases |s|
  {
    var i := IndexOf(s, sep);
    SplitUnfolds(s, sep, i);
    if i < |s| {
      SplitJoins(s[i + 1..], sep);
      assert ([s[..i]] + Split(s[i + 1..], sep))[1..] == Split(s[i + 1..], sep);
      assert s == s[..i] + [sep] + s[i + 1..];
    }
  }

  /** strings.SplitN(s, sep, 2) */
  function SplitN2(s: string, sep: char): (parts: seq<string>)
    ensures 1 <= |parts| <= 2
  {
    var i := IndexOf(s, sep);
    if i == |s| then [s] else [s[..i], s[i + 1..]]
  }

  lemma IndexOfConcat(s: string, t: string, c: char)
    ensures IndexOf(s + [c] + t, c) == IndexOf(s, c)
  {
    var i, u := IndexOf(s, c), s + [c] + t;
    assert forall j :: 0 <= j < i ==> u[j] == s[j];
    assert u[i] == c;
  }

  lemma SplitUnfolds(s: string, sep: char, i: nat)
    requires i == IndexOf(s, sep)
    ensures Split(s, sep) == if i == |s| then [s] else [s[..i]] + Split(s[i + 1..], sep)
  {
    if i == |s| {
      assert Split(s, sep) == [s];
    }
  }

  lemma CutConcat(s: string, t: string, sep: char, i: nat)
    requires i <= |s|
    ensures (s + [sep] + t)[..i] == s[..i]
    ensures i < |s| ==> (s + [sep] + t)[i + 1..] == s[i + 1..] + [sep] + t
    ensures i == |s| ==> (s + [sep] + t)[i + 1..] == t && s[..i] == s
  {
  }

  lemma {:induction false} SplitConcat(s: string, t: string, sep: char)
    ensures Split(s + [sep] + t, sep) == Split(s, sep) + Split(t, sep)
    decreases |s|
  {
    var u, i := s + [sep] + t, IndexOf(s, sep);
    IndexOfConcat(s, t, sep);
    CutConcat(s, t, sep, i);
    SplitUnfolds(u, sep, i);
    SplitUnfolds(s, sep, i);
    if i < |s| {
      SplitConcat(s[i + 1..], t, sep);
      PrependAssociative(s[..i], Split(s[i + 1..], sep), Split(t, sep));
    }
  }

  lemma PrependAssociative(x: string, a: seq<string>, b: seq<string>)
    ensures [x] + (a + b) == ([x] + a) + b
  {
  }

  // ---------------------------------------------------------------- parsing

  /** The label one comma-separated piece contributes; a piece without `=` contributes none. */
  function ParsePair(pair: string): Labels {
    var kv := SplitN2(pair, '=');
    if |kv| == 2 then map[TrimSpace(kv[0]) := TrimSpace(kv[1])] else map[]
  }

  /** A piece without `=` says nothing; any other is cut at its first `=`, and both sides are trimmed. */
  lemma PieceSays(key: string, value: string)
    requires '=' !in key
    ensures ParsePair(key) == map[]
    ensures ParsePair(key + "=" + value) == map[TrimSpace(key) := TrimSpace(value)]
  {
    var pair := key + "=" + value;
    assert IndexOf(pair, '=') == |key| by {
      assert pair[|key|] == '=';
      assert forall j :: 0 <= j < |key| ==> pair[j] == key[j];
    }
    assert pair[..|key|] == key && pair[|key| + 1..] == value;
  }

  function Pieces(pairs: seq<string>): seq<Labels> {
    seq(|pairs|, i requires 0 <= i < |pairs| => ParsePair(pairs[i]))
  }

  /** The labels of a text: those of its pieces, later pieces winning. */
  function LabelsIn(s: string): Labels {
    Overlay(Pieces(Split(s, ',')))
  }

  lemma OverlayStep(layers: seq<Labels>, i: nat)
    requires i < |layers|
    ensures Overlay(layers[..i + 1]) == Overlay(layers[..i]) + layers[i]
  {
    assert layers[..i + 1] == layers[..i] + [layers[i]];
    OverlaySnoc(layers[..i], layers[i]);
  }

  /** Piece `i` of `parts` is the last whose part before the first `=` is, trimmed, the key `k`. */
  ghost predicate LastPieceFor(parts: seq<string>, k: string, i: nat) {
    && i < |parts| && Names(parts[i], k)
    && forall j :: i < j < |parts| ==> !Names(parts[j], k)
  }

  predicate Names(piece: string, k: string) {
    var cut := IndexOf(piece, '=');
    cut < |piece| && TrimSpace(piece[..cut]) == k
  }

  lemma PieceNames(piece: string, k: string)
    ensures k in ParsePair(piece) <==> Names(piece, k)
    ensures Names(piece, k) ==> ParsePair(piece)[k] == TrimSpace(piece[IndexOf(piece, '=') + 1..])
  {
  }

  lemma LastPieceIsLastLayer(parts: seq<string>, k: string, i: nat)
    ensures LastLayerWith(Pieces(parts), k, i) <==> LastPieceFor(parts, k, i)
  {
    forall j | 0 <= j < |parts|
      ensures k in Pieces(parts)[j] <==> Names(parts[j], k)
    {
      PieceNames(parts[j], k);
    }
  }

  /** A label comes from the last piece that names it: it is what stands there after the first `=`, trimmed. */
  lemma LabelIsLastPiece(s: string, k: string, i: nat)
    requires LastPieceFor(Split(s, ','), k, i)
    ensures k in LabelsIn(s) && LabelsIn(s)[k] == TrimSpace(Split(s, ',')[i][IndexOf(Split(s, ',')[i], '=') + 1..])
  {
    var parts := Split(s, ',');
    LastPieceIsLastLayer(parts, k, i);
    OverlayIsLast(Pieces(parts), k);
    PieceNames(parts[i], k);
  }

  /** Every label is named by some piece. */
  lemma LabelHasPiece(s: string, k: string) returns (i: nat)
    requires k in LabelsIn(s)
    ensures LastPieceFor(Split(s, ','), k, i)
  {
    var layers := Pieces(Split(s, ','));
    OverlayIsLast(layers, k);
    i :| LastLayerWith(layers, k, i);
    LastPieceIsLastLayer(Split(s, ','), k, i);
  }

  method ParseLabels(s: string) returns (labels: Labels)
    ensures labels == LabelsIn(s)
  {
    labels := map[];
    var pairs := Split(s, ',');
    ghost var layers := Pieces(pairs);
    for i := 0 to |pairs|
      invariant labels == Overlay(layers[..i])
    {
      OverlayStep(layers, i);
      var kv := SplitN2(pairs[i], '=');
      if |kv| == 2 {
        MapAddOne(labels, TrimSpace(kv[0]), TrimSpace(kv[1]));
        labels := labels[TrimSpace(kv[0]) := TrimSpace(kv[1])];
      }
    }
    assert layers[..|pairs|] == layers;
  }

  lemma PiecesConcat(a: seq<string>, b: seq<string>)
    ensures Pieces(a + b) == Pieces(a) + Pieces(b)
  {
  }

  /** Parsing turns a comma into the right-biased overlay. */
  lemma ParsingIsHomomorphic(s: string, t: string)
    ensures LabelsIn(s + "," + t) == LabelsIn(s) + LabelsIn(t)
  {
    var a, b := Split(s, ','), Split(t, ',');
    SplitConcat(s, t, ',');
    PiecesConcat(a, b);
    OverlayConcat(Pieces(a), Pieces(b));
    assert s + "," + t == s + [','] + t;
  }

  // ---------------------------------------------------------------- writing labels back

  /** The labels that the notation can express. */
  ghost predicate Expressible(m: Labels) {
    forall k :: k in m ==>
      && Trimmed(k) && ',' !in k && '=' !in k
      && Trimmed(m[k]) && ',' !in m[k]
  }

  function PairText(m: Labels, k: string): string
    requires k in m
  {
    k + "=" + m[k]
  }

  /** The labels in the order `keys`, joined by commas. */
  function LabelsText(m: Labels, keys: seq<string>): string
    requires forall k :: k in keys ==> k in m
  {
    if |keys| == 0 then ""
    else if |keys| == 1 then PairText(m, keys[0])
    else LabelsText(m, keys[..|keys| - 1]) + "," + PairText(m, keys[|keys| - 1])
  }

  lemma OnePiece(text: string)
    requires ',' !in text
    ensures LabelsIn(text) == ParsePair(text)
  {
    assert Split(text, ',') == [text];
    assert Pieces([text]) == [ParsePair(text)];
    OverlayOne(ParsePair(text));
  }

  lemma PairParses(m: Labels, k: string)
    requires Expressible(m) && k in m
    ensures LabelsIn(PairText(m, k)) == map[k := m[k]]
  {
    var text := PairText(m, k);
    assert ',' !in text;
    OnePiece(text);
    assert IndexOf(text, '=') == |k| by {
      assert text[|k|] == '=';
      assert forall j :: 0 <= j < |k| ==> text[j] == k[j];
    }
    assert text[..|k|] == k && text[|k| + 1..] == m[k];
    TrimSpaceFacts(k);
    TrimSpaceFacts(m[k]);
  }

  /** The labels of `m` under the given keys. */
  function Restricted(m: Labels, keys: seq<string>): Labels
    requires forall k :: k in keys ==> k in m
  {
    map k | k in keys :: m[k]
  }

  lemma RestrictedSnoc(m: Labels, keys: seq<string>, last: string)
    requires forall k :: k in keys + [last] ==> k in m
    requires forall k :: k in keys ==> k in m
    requires last in m
    ensures Restricted(m, keys + [last]) == Restricted(m, keys) + map[last := m[last]]
  {
    assert forall k :: k in keys + [last] <==> k in keys || k == last;
  }

  lemma {:induction false} TextParses(m: Labels, keys: seq<string>)
    requires Expressible(m) && forall k :: k in keys ==> k in m
    ensures LabelsIn(LabelsText(m, keys)) == Restricted(m, keys)
  {
    if |keys| == 0 {
      OnePiece("");
    } else {
      var front, last := keys[..|keys| - 1], keys[|keys| - 1];
      assert keys == front + [last];
      PairParses(m, last);
      RestrictedSnoc(m, front, last);
      if |keys| == 1 {
        assert Restricted(m, front) == map[];
      } else {
        TextParses(m, front);
        ParsingIsHomomorphic(LabelsText(m, front), PairText(m, last));
      }
    }
  }

  lemma PairIsExpressible(pair: string)
    requires ',' !in pair
    ensures Expressible(ParsePair(pair))
  {
    var kv := SplitN2(pair, '=');
    if |kv| == 2 {
      assert forall p, c :: p in kv && c in p ==> c in pair;
      TrimSpaceFacts(kv[0]);
      TrimSpaceFacts(kv[1]);
    }
  }

  /** Whatever text is parsed, the result is expressible. */
  lemma ParsedIsExpressible(s: string)
    ensures Expressible(LabelsIn(s))
  {
    var pairs := Split(s, ',');
    forall k | k in LabelsIn(s)
      ensures Trimmed(k) && ',' !in k && '=' !in k && Trimmed(LabelsIn(s)[k]) && ',' !in LabelsIn(s)[k]
    {
      OverlayIsLast(Pieces(pairs), k);
      var i: nat :| LastLayerWith(Pieces(pairs), k, i);
      assert pairs[i] in pairs;
      PairIsExpressible(pairs[i]);
    }
  }

  /** A label map survives writing and parsing, in any key order, exactly when it is expressible. */
  lemma RoundTripIffExpressible(m: Labels, keys: seq<string>)
    requires (set k | k in keys) == m.Keys
    ensures LabelsIn(LabelsText(m, keys)) == m <==> Expressible(m)
  {
    assert forall k :: k in keys <==> k in (set x | x in keys);
    if Expressible(m) {
      TextParses(m, keys);
      assert Restricted(m, keys) == m;
    }
    ParsedIsExpressible(LabelsText(m, keys));
  }
}
