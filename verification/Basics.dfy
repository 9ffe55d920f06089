/**
 Vocabulary shared by every other module: optional values, results, Go's map read,
 and the order-preserving subsequence relation used by the report and event logs.
 */
module Basics {

  datatype Option<+T> = None | Some(value: T)

  datatype Result<+T, +E> = Ok(value: T) | Err(error: E)

  type Labels = map<string, string>

  /** Go's `m[k]` on a map of strings: a missing key reads as the empty string. */
  function Lookup(m: map<string, string>, k: string): string {
    if k in m then m[k] else ""
  }

  /** `f` maps the positions of `a` to strictly increasing positions of `b` holding the same elements. */
  ghost predicate Embeds<T>(a: seq<T>, b: seq<T>, f: seq<nat>) {
    && |f| == |a|
    && (forall i :: 0 <= i < |f| ==> f[i] < |b| && a[i] == b[f[i]])
    && (forall i, j :: 0 <= i < j < |f| ==> f[i] < f[j])
  }

  /** `a` can be obtained from `b` by deleting elements, keeping the order of the rest. */
  ghost predicate Subsequence<T>(a: seq<T>, b: seq<T>) {
    exists f: seq<nat> :: Embeds(a, b, f)
  }

  lemma SubsequenceEmpty<T>(b: seq<T>)
    ensures Subsequence([], b)
  {
    assert Embeds([], b, []);
  }

  lemma SubsequenceSkip<T>(a: seq<T>, b: seq<T>, x: T)
    requires Subsequence(a, b)
    ensures Subsequence(a, b + [x])
  {
    var f: seq<nat> :| Embeds(a, b, f);
    assert Embeds(a, b + [x], f);
  }

  lemma SubsequenceKeep<T>(a: seq<T>, b: seq<T>, x: T)
    requires Subsequence(a, b)
    ensures Subsequence(a + [x], b + [x])
  {
    var f: seq<nat> :| Embeds(a, b, f);
    assert Embeds(a + [x], b + [x], f + [|b|]);
  }

  // ---------------------------------------------------------------- overlays

  /** Right-biased overlay: a later layer wins on the keys it has. */
  function Overlay<V>(layers: seq<map<string, V>>): map<string, V> {
    if layers == [] then map[] else Overlay(layers[..|layers| - 1]) + layers[|layers| - 1]
  }

  lemma OverlaySnoc<V>(layers: seq<map<string, V>>, last: map<string, V>)
    ensures Overlay(layers + [last]) == Overlay(layers) + last
  {
    assert (layers + [last])[..|layers|] == layers;
  }

  lemma OverlayOne<V>(layer: map<string, V>)
    ensures Overlay([layer]) == layer
  {
    OverlaySnoc([], layer);
    assert [] + [layer] == [layer];
  }

  lemma MapAddAssociative<V>(a: map<string, V>, b: map<string, V>, c: map<string, V>)
    ensures (a + b) + c == a + (b + c)
  {
  }

  lemma MapAddOne<V>(m: map<string, V>, k: string, v: V)
    ensures m + map[k := v] == m[k := v]
  {
  }

  lemma {:induction false} OverlayConcat<V>(a: seq<map<string, V>>, b: seq<map<string, V>>)
    ensures Overlay(a + b) == Overlay(a) + Overlay(b)
  {
    if b == [] {
      assert a + b == a;
    } else {
      var front, last := b[..|b| - 1], b[|b| - 1];
      assert a + b == (a + front) + [last] && b == front + [last];
      OverlayConcat(a, front);
      OverlaySnoc(a + front, last);
      OverlaySnoc(front, last);
      MapAddAssociative(Overlay(a), Overlay(front), last);
    }
  }

  /** `i` is the last layer that has key `k`. */
  ghost predicate LastLayerWith<V>(layers: seq<map<string, V>>, k: string, i: nat) {
    i < |layers| && k in layers[i] && forall j :: i < j < |layers| ==> k !in layers[j]
  }

  /** The overlay has the keys of all layers, each with the value of the last layer that has it. */
  lemma {:induction false} OverlayIsLast<V>(layers: seq<map<string, V>>, k: string)
    ensures k in Overlay(layers) <==> exists i: nat :: LastLayerWith(layers, k, i)
    ensures forall i: nat :: LastLayerWith(layers, k, i) ==> k in Overlay(layers) && Overlay(layers)[k] == layers[i][k]
  {
    if layers != [] {
      var n := |layers| - 1;
      var front := layers[..n];
      OverlayIsLast(front, k);
      if k in layers[n] {
        assert LastLayerWith(layers, k, n);
      } else {
        forall i: nat | i < n
          ensures LastLayerWith(layers, k, i) <==> LastLayerWith(front, k, i)
        {
          assert forall j :: 0 <= j < n ==> front[j] == layers[j];
        }
      }
    }
  }
}
