/** The key of one group of an aggregate result: attribute names, stored in
    lower case, and the attribute values of the group. */
module AggregateGroup {
  import opened Text
  import opened JavaHash

  datatype Group<V> = Group(attributeNames: seq<string>, attributeValues: seq<V>)

  /** The constructor: lower-cases every name, keeps the values as given. */
  function Make<V>(attributeNames: seq<string>, attributeValues: seq<V>): (g: Group<V>)
    ensures |g.attributeNames| == |attributeNames|
    ensures forall i :: 0 <= i < |attributeNames| ==> EqualsIgnoreCase(g.attributeNames[i], attributeNames[i])
    ensures forall i :: 0 <= i < |attributeNames| ==> NoUpper(g.attributeNames[i])
    ensures g.attributeValues == attributeValues
  {
    var names := seq(|attributeNames|, i requires 0 <= i < |attributeNames| => Lower(attributeNames[i]));
    assert forall i :: 0 <= i < |attributeNames| ==> EqualsIgnoreCase(names[i], attributeNames[i]) by {
      forall i | 0 <= i < |attributeNames|
        ensures EqualsIgnoreCase(names[i], attributeNames[i])
      {
        LowerIdempotent(attributeNames[i]);
        EqualsIgnoreCaseIsLowerEquality(names[i], attributeNames[i]);
      }
    }
    Group(names, attributeValues)
  }

  /** `empty()`: no names and no values. */
  function Empty<V>(): (g: Group<V>)
    ensures |g.attributeNames| == 0 && |g.attributeValues| == 0
  {
    Make([], [])
  }

  /** `equals`: `List.equals` on the names and on the values. */
  predicate Equals<V>(a: Group<V>, b: Group<V>, eq: (V, V) -> bool) {
    && a.attributeNames == b.attributeNames
    && ListEquals(a.attributeValues, b.attributeValues, eq)
  }

  /** `hashCode`. */
  function HashCode<V>(g: Group<V>, valueHash: V -> int): int {
    AttributeListsHash(g.attributeNames, g.attributeValues, valueHash)
  }

  /** Two groups built from names that agree ignoring case, and equal values,
      are equal; and only those. */
  lemma {:induction false} MakeEqualsIffNamesEqualIgnoringCase<V>(
    n1: seq<string>, v1: seq<V>, n2: seq<string>, v2: seq<V>, eq: (V, V) -> bool)
    ensures Equals(Make(n1, v1), Make(n2, v2), eq) <==>
              && |n1| == |n2|
              && (forall i :: 0 <= i < |n1| ==> EqualsIgnoreCase(n1[i], n2[i]))
              && ListEquals(v1, v2, eq)
  {
    var g1, g2 := Make(n1, v1), Make(n2, v2);
    if |n1| == |n2| {
      forall i | 0 <= i < |n1|
        ensures g1.attributeNames[i] == g2.attributeNames[i] <==> EqualsIgnoreCase(n1[i], n2[i])
      {
        EqualsIgnoreCaseIsLowerEquality(n1[i], n2[i]);
        LowerOfLowerCaseString(g1.attributeNames[i]);
        LowerOfLowerCaseString(g2.attributeNames[i]);
        EqualsIgnoreCaseIsLowerEquality(g1.attributeNames[i], n1[i]);
        EqualsIgnoreCaseIsLowerEquality(g2.attributeNames[i], n2[i]);
      }
      if forall i :: 0 <= i < |n1| ==> EqualsIgnoreCase(n1[i], n2[i]) {
        assert g1.attributeNames == g2.attributeNames;
      }
    }
  }

  /** Re-building a group from its own attributes changes nothing. */
  lemma {:induction false} MakeIdempotent<V>(names: seq<string>, values: seq<V>)
    ensures var g := Make(names, values); Make(g.attributeNames, g.attributeValues) == g
  {
    var g := Make(names, values);
    var h := Make(g.attributeNames, g.attributeValues);
    forall i | 0 <= i < |names|
      ensures h.attributeNames[i] == g.attributeNames[i]
    {
      LowerOfLowerCaseString(g.attributeNames[i]);
      EqualsIgnoreCaseIsLowerEquality(h.attributeNames[i], g.attributeNames[i]);
      LowerOfLowerCaseString(h.attributeNames[i]);
    }
  }

  /** Equal groups have equal hash codes, provided the values keep the
      `hashCode`/`equals` contract. */
  lemma {:induction false} EqualGroupsHashEqually<V(!new)>(a: Group<V>, b: Group<V>, valueHash: V -> int, eq: (V, V) -> bool)
    requires HashRespectsEquality(valueHash, eq)
    requires Equals(a, b, eq)
    ensures HashCode(a, valueHash) == HashCode(b, valueHash)
  {
    AttributeListsHashRespectsEquality(a.attributeNames, a.attributeValues, b.attributeValues, valueHash, eq);
  }

  /** The empty group's hash code is 31 * (31 + 1) + 1. */
  lemma EmptyHashCode<V>(valueHash: V -> int)
    ensures HashCode(Empty<V>(), valueHash) == 993
  {
  }
}
