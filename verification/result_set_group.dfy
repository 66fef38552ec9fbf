/** The key of one group of a result set: attribute names and values stored
    exactly as given, with no case normalisation. */
module ResultSetGroup {
  import opened JavaHash
  import AggregateGroup

  datatype Group<V> = Group(attributeNames: seq<string>, attributeValues: seq<V>)

  /** `empty()`: no names and no values. */
  function Empty<V>(): (g: Group<V>)
    ensures |g.attributeNames| == 0 && |g.attributeValues| == 0
  {
    Group([], [])
  }

  /** `equals`: `List.equals` on the names and on the values. */
  predicate Equals<V>(a: Group<V>, b: Group<V>, eq: (V, V) -> bool) {
    && a.attributeNames == b.attributeNames
    && ListEquals(a.attributeValues, b.attributeValues, eq)
  }

  /** `hashCode`. */
  function HashCode<V>(g: Group<V>, valueHash: V -> int): int {
    AttributeListsHash(g.attributeNames, g.attributeValues, valueHash)
  }

  /** Every group equals itself when the values' `equals` is reflexive. */
  lemma EqualsReflexive<V(!new)>(g: Group<V>, eq: (V, V) -> bool)
    requires forall x :: eq(x, x)
    ensures Equals(g, g, eq)
  {
  }

  /** Equality needs the very same names: any difference, case included, tells
      two groups apart. */
  lemma EqualsNeedsIdenticalNames<V>(a: Group<V>, b: Group<V>, eq: (V, V) -> bool)
    requires a.attributeNames != b.attributeNames
    ensures !Equals(a, b, eq)
  {
  }

  /** Equal groups have equal hash codes, provided the values keep the
      `hashCode`/`equals` contract. */
  lemma {:induction false} EqualGroupsHashEqually<V(!new)>(a: Group<V>, b: Group<V>, valueHash: V -> int, eq: (V, V) -> bool)
    requires HashRespectsEquality(valueHash, eq)
    requires Equals(a, b, eq)
    ensures HashCode(a, valueHash) == HashCode(b, valueHash)
  {
    AttributeListsHashRespectsEquality(a.attributeNames, a.attributeValues, b.attributeValues, valueHash, eq);
  }

  /** Names "Year" and "year" with the same value: two distinct result-set
      groups, but one aggregate group. */
  lemma CaseSeparatesOnlyResultSetGroups<V>(value: V, eq: (V, V) -> bool)
    requires eq(value, value)
    ensures !Equals(Group(["Year"], [value]), Group(["year"], [value]), eq)
    ensures AggregateGroup.Equals(AggregateGroup.Make(["Year"], [value]), AggregateGroup.Make(["year"], [value]), eq)
  {
    assert "Year" != "year" by { assert "Year"[0] != "year"[0]; }
    assert ["Year"] != ["year"] by { assert ["Year"][0] != ["year"][0]; }
    AggregateGroup.MakeEqualsIffNamesEqualIgnoringCase(["Year"], [value], ["year"], [value], eq);
  }
}
