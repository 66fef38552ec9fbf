/** The `java.lang.String`, `java.util.List` equality and `hashCode` rules the
    group key classes inherit, with Java's 32-bit `int` wrap-around. */
module JavaHash {
  const TwoTo32: int := 0x1_0000_0000
  const TwoTo31: int := 0x8000_0000

  predicate IsInt32(x: int) {
    -TwoTo31 <= x < TwoTo31
  }

  /** Two's-complement truncation of a mathematical integer to a Java `int`. */
  function Int32(x: int): (r: int)
    ensures IsInt32(r)
    ensures (r - x) % TwoTo32 == 0
    ensures IsInt32(x) ==> r == x
  {
    (x + TwoTo31) % TwoTo32 - TwoTo31
  }

  /** `String.hashCode`: h = 31 * h + c over the characters, starting from 0. */
  function StringHash(s: string): (r: int)
    ensures IsInt32(r)
    ensures |s| == 0 ==> r == 0
    decreases |s|
  {
    if |s| == 0 then 0 else Int32(31 * StringHash(s[..|s| - 1]) + s[|s| - 1] as int)
  }

  /** `List.hashCode`: h = 31 * h + hash(e) over the elements, starting from 1. */
  function ListHash<T>(xs: seq<T>, hash: T -> int): (r: int)
    ensures IsInt32(r)
    ensures |xs| == 0 ==> r == 1
    decreases |xs|
  {
    if |xs| == 0 then 1 else Int32(31 * ListHash(xs[..|xs| - 1], hash) + hash(xs[|xs| - 1]))
  }

  /** `List.equals`: same length and pairwise `equals`. */
  predicate ListEquals<T>(xs: seq<T>, ys: seq<T>, eq: (T, T) -> bool) {
    |xs| == |ys| && forall i :: 0 <= i < |xs| ==> eq(xs[i], ys[i])
  }

  /** The `hashCode`/`equals` contract of the element type. */
  ghost predicate HashRespectsEquality<T(!new)>(hash: T -> int, eq: (T, T) -> bool) {
    forall x, y :: eq(x, y) ==> hash(x) == hash(y)
  }

  /** Lists equal by `List.equals` have equal `List.hashCode`, provided the
      elements keep the `hashCode`/`equals` contract. */
  lemma {:induction false} ListHashRespectsEquality<T(!new)>(xs: seq<T>, ys: seq<T>, hash: T -> int, eq: (T, T) -> bool)
    requires HashRespectsEquality(hash, eq)
    requires ListEquals(xs, ys, eq)
    ensures ListHash(xs, hash) == ListHash(ys, hash)
    decreases |xs|
  {
    if |xs| > 0 {
      var n := |xs| - 1;
      assert eq(xs[n], ys[n]);
      assert ListEquals(xs[..n], ys[..n], eq) by {
        forall i | 0 <= i < n
          ensures eq(xs[..n][i], ys[..n][i])
        {
          assert eq(xs[i], ys[i]);
        }
      }
      ListHashRespectsEquality(xs[..n], ys[..n], hash, eq);
    }
  }

  /** Two Java `int`s that agree modulo 2^32 are the same `int`. */
  lemma {:induction false} Int32Unique(p: int, q: int)
    requires IsInt32(p) && IsInt32(q)
    requires (p - q) % TwoTo32 == 0
    ensures p == q
  {
    var k := (p - q) / TwoTo32;
    assert p - q == k * TwoTo32;
  }

  /** Wrapping the intermediate result of `31 * (31 + a) + b` as well as the
      final one gives the same `int` as wrapping only the final one. */
  lemma {:induction false} WrappedMultiplyAdd(a: int, b: int)
    ensures Int32(31 * Int32(31 * 1 + a) + b) == Int32(31 * (31 + a) + b)
  {
    var x := 31 * 1 + a;
    var y := 31 * Int32(x) + b;
    var z := 31 * (31 + a) + b;
    var k1 := (Int32(x) - x) / TwoTo32;
    var k2 := (Int32(y) - y) / TwoTo32;
    var k3 := (Int32(z) - z) / TwoTo32;
    assert Int32(x) - x == k1 * TwoTo32;
    assert Int32(y) - y == k2 * TwoTo32;
    assert Int32(z) - z == k3 * TwoTo32;
    assert Int32(y) - Int32(z) == (k2 + 31 * k1 - k3) * TwoTo32;
    Int32Unique(Int32(y), Int32(z));
  }

  /** The `hashCode` both group key classes share: 31 * (31 * 1 + names' hash)
      + values' hash, in `int` arithmetic. Wrapping after each step, as Java
      does, gives the exact value wrapped once to an `int`. */
  function AttributeListsHash<V>(names: seq<string>, values: seq<V>, valueHash: V -> int): (h: int)
    ensures IsInt32(h)
    ensures h == Int32(31 * (31 + ListHash(names, StringHash)) + ListHash(values, valueHash))
  {
    var namesHash := ListHash(names, StringHash);
    var valuesHash := ListHash(values, valueHash);
    var h := Int32(31 * Int32(31 * 1 + namesHash) + valuesHash);
    assert h == Int32(31 * (31 + namesHash) + valuesHash) by {
      WrappedMultiplyAdd(namesHash, valuesHash);
    }
    h
  }

  /** Equal names and `List.equals`-equal values hash alike. */
  lemma {:induction false} AttributeListsHashRespectsEquality<V(!new)>(
    names: seq<string>, values1: seq<V>, values2: seq<V>, valueHash: V -> int, eq: (V, V) -> bool)
    requires HashRespectsEquality(valueHash, eq)
    requires ListEquals(values1, values2, eq)
    ensures AttributeListsHash(names, values1, valueHash) == AttributeListsHash(names, values2, valueHash)
  {
    ListHashRespectsEquality(values1, values2, valueHash, eq);
  }

  /** `String.equals` is character equality, so `List<String>.equals` is
      sequence equality. */
  lemma StringListEqualsIsEquality(xs: seq<string>, ys: seq<string>)
    ensures ListEquals(xs, ys, (a: string, b: string) => a == b) <==> xs == ys
  {
    if ListEquals(xs, ys, (a: string, b: string) => a == b) {
      assert forall i :: 0 <= i < |xs| ==> xs[i] == ys[i];
    }
  }
}
