/**
 Composite dictionary keys `Key<K1, …, Kn>` for n = 2 to 5, named Key2 to
 Key5 here. A key stores its components in declaration order (the datatype
 constructor is the C# constructor, its destructors `key1` … `key5` the
 `Key1` … `Key5` properties). Components are non-null, as the `notnull`
 constraints declare; the null a default key leaves in a reference-type
 component is not modelled. Two keys are `Equals` when every position is
 equal by that component type's own `Equals`; the hash code combines the
 components' hash codes.

 A component type `K : IEquatable<K>` is represented by an `Equatable<K>`: its
 `Equals(K)` and its `GetHashCode()`. `HashCode.Combine` is a parameter of
 `GetHashCode`: its mixing (seeded per process) is not modelled, so nothing
 here depends on which function it is.
 */
module Keys {
  import opened Primitives

  /** The `IEquatable<K>.Equals` and `GetHashCode` of a component type. */
  datatype Equatable<!K> = Equatable(equals: (K, K) -> bool, hash: K -> int32)

  ghost predicate IsEquivalence<K(!new)>(eq: (K, K) -> bool) {
    && (forall x :: eq(x, x))
    && (forall x, y :: eq(x, y) ==> eq(y, x))
    && (forall x, y, z :: eq(x, y) && eq(y, z) ==> eq(x, z))
  }

  /** The .NET contract between a component's `Equals` and `GetHashCode`: equal values hash alike. */
  ghost predicate HashRespectsEquals<K(!new)>(c: Equatable<K>) {
    forall x, y :: c.equals(x, y) ==> c.hash(x) == c.hash(y)
  }

  /** A component type whose `Equals` is plain value equality, as for `int`, `string`, `char`. */
  function Natural<K(==)>(hash: K -> int32): (c: Equatable<K>) {
    Equatable((x: K, y: K) => x == y, hash)
  }

  // ------------------------------------------------------------------- Key2

  datatype Key2<K1, K2> = Key2(key1: K1, key2: K2) {

    /** `Equals(Key<K1, K2>)`: position by position, left to right. */
    predicate Equals(other: Key2<K1, K2>, c1: Equatable<K1>, c2: Equatable<K2>) {
      c1.equals(key1, other.key1) && c2.equals(key2, other.key2)
    }

    /** `Equals(object?)`: only a `Key<K1, K2>` can be equal, and then as `Equals` says. */
    function EqualsObject(obj: Obj<Key2<K1, K2>>, c1: Equatable<K1>, c2: Equatable<K2>): (r: bool)
      ensures r <==> obj.OfType? && Equals(obj.value, c1, c2)
    {
      match obj
      case OfType(other) => Equals(other, c1, c2)
      case _ => false
    }

    /** `HashCode.Combine(Key1, Key2)`. */
    function GetHashCode(c1: Equatable<K1>, c2: Equatable<K2>, combine: (int32, int32) -> int32): (h: int32) {
      combine(c1.hash(key1), c2.hash(key2))
    }
  }

  /** Key equality is an equivalence whenever each component's equality is. */
  lemma Key2IsEquivalence<K1(!new), K2(!new)>(c1: Equatable<K1>, c2: Equatable<K2>)
    requires IsEquivalence(c1.equals) && IsEquivalence(c2.equals)
    ensures IsEquivalence((a: Key2<K1, K2>, b: Key2<K1, K2>) => a.Equals(b, c1, c2))
  {
  }

  /** Equal keys have equal hash codes, whichever combine function is used. */
  lemma Key2HashAgreesWithEquals<K1(!new), K2(!new)>(a: Key2<K1, K2>, b: Key2<K1, K2>,
                                                     c1: Equatable<K1>, c2: Equatable<K2>,
                                                     combine: (int32, int32) -> int32)
    requires HashRespectsEquals(c1) && HashRespectsEquals(c2) && a.Equals(b, c1, c2)
    ensures a.GetHashCode(c1, c2, combine) == b.GetHashCode(c1, c2, combine)
  {
  }

  /**
   With plain value equality in every position, two keys are equal exactly
   when they were built from the same components: one differing position
   makes them unequal.
   */
  lemma Key2EqualsIsStructural<K1, K2>(a: Key2<K1, K2>, b: Key2<K1, K2>,
                                       h1: K1 -> int32, h2: K2 -> int32)
    ensures a.Equals(b, Natural(h1), Natural(h2)) <==> a == b
  {
  }

  // ------------------------------------------------------------------- Key3

  datatype Key3<K1, K2, K3> = Key3(key1: K1, key2: K2, key3: K3) {

    predicate Equals(other: Key3<K1, K2, K3>, c1: Equatable<K1>, c2: Equatable<K2>, c3: Equatable<K3>) {
      c1.equals(key1, other.key1) && c2.equals(key2, other.key2) && c3.equals(key3, other.key3)
    }

    function EqualsObject(obj: Obj<Key3<K1, K2, K3>>, c1: Equatable<K1>, c2: Equatable<K2>, c3: Equatable<K3>): (r: bool)
      ensures r <==> obj.OfType? && Equals(obj.value, c1, c2, c3)
    {
      match obj
      case OfType(other) => Equals(other, c1, c2, c3)
      case _ => false
    }

    function GetHashCode(c1: Equatable<K1>, c2: Equatable<K2>, c3: Equatable<K3>,
                         combine: (int32, int32, int32) -> int32): (h: int32) {
      combine(c1.hash(key1), c2.hash(key2), c3.hash(key3))
    }
  }

  lemma Key3IsEquivalence<K1(!new), K2(!new), K3(!new)>(c1: Equatable<K1>, c2: Equatable<K2>, c3: Equatable<K3>)
    requires IsEquivalence(c1.equals) && IsEquivalence(c2.equals) && IsEquivalence(c3.equals)
    ensures IsEquivalence((a: Key3<K1, K2, K3>, b: Key3<K1, K2, K3>) => a.Equals(b, c1, c2, c3))
  {
  }

  lemma Key3HashAgreesWithEquals<K1(!new), K2(!new), K3(!new)>(a: Key3<K1, K2, K3>, b: Key3<K1, K2, K3>,
                                                               c1: Equatable<K1>, c2: Equatable<K2>, c3: Equatable<K3>,
                                                               combine: (int32, int32, int32) -> int32)
    requires HashRespectsEquals(c1) && HashRespectsEquals(c2) && HashRespectsEquals(c3)
    requires a.Equals(b, c1, c2, c3)
    ensures a.GetHashCode(c1, c2, c3, combine) == b.GetHashCode(c1, c2, c3, combine)
  {
  }

  lemma Key3EqualsIsStructural<K1, K2, K3>(a: Key3<K1, K2, K3>, b: Key3<K1, K2, K3>,
                                           h1: K1 -> int32, h2: K2 -> int32, h3: K3 -> int32)
    ensures a.Equals(b, Natural(h1), Natural(h2), Natural(h3)) <==> a == b
  {
  }

  // ------------------------------------------------------------------- Key4

  datatype Key4<K1, K2, K3, K4> = Key4(key1: K1, key2: K2, key3: K3, key4: K4) {

    predicate Equals(other: Key4<K1, K2, K3, K4>,
                     c1: Equatable<K1>, c2: Equatable<K2>, c3: Equatable<K3>, c4: Equatable<K4>) {
      && c1.equals(key1, other.key1) && c2.equals(key2, other.key2)
      && c3.equals(key3, other.key3) && c4.equals(key4, other.key4)
    }

    function EqualsObject(obj: Obj<Key4<K1, K2, K3, K4>>,
                          c1: Equatable<K1>, c2: Equatable<K2>, c3: Equatable<K3>, c4: Equatable<K4>): (r: bool)
      ensures r <==> obj.OfType? && Equals(obj.value, c1, c2, c3, c4)
    {
      match obj
      case OfType(other) => Equals(other, c1, c2, c3, c4)
      case _ => false
    }

    function GetHashCode(c1: Equatable<K1>, c2: Equatable<K2>, c3: Equatable<K3>, c4: Equatable<K4>,
                         combine: (int32, int32, int32, int32) -> int32): (h: int32) {
      combine(c1.hash(key1), c2.hash(key2), c3.hash(key3), c4.hash(key4))
    }
  }

  lemma Key4IsEquivalence<K1(!new), K2(!new), K3(!new), K4(!new)>(
    c1: Equatable<K1>, c2: Equatable<K2>, c3: Equatable<K3>, c4: Equatable<K4>)
    requires IsEquivalence(c1.equals) && IsEquivalence(c2.equals)
    requires IsEquivalence(c3.equals) && IsEquivalence(c4.equals)
    ensures IsEquivalence((a: Key4<K1, K2, K3, K4>, b: Key4<K1, K2, K3, K4>) => a.Equals(b, c1, c2, c3, c4))
  {
  }

  lemma Key4HashAgreesWithEquals<K1(!new), K2(!new), K3(!new), K4(!new)>(
    a: Key4<K1, K2, K3, K4>, b: Key4<K1, K2, K3, K4>,
    c1: Equatable<K1>, c2: Equatable<K2>, c3: Equatable<K3>, c4: Equatable<K4>,
    combine: (int32, int32, int32, int32) -> int32)
    requires HashRespectsEquals(c1) && HashRespectsEquals(c2)
    requires HashRespectsEquals(c3) && HashRespectsEquals(c4)
    requires a.Equals(b, c1, c2, c3, c4)
    ensures a.GetHashCode(c1, c2, c3, c4, combine) == b.GetHashCode(c1, c2, c3, c4, combine)
  {
  }

  lemma Key4EqualsIsStructural<K1, K2, K3, K4>(
    a: Key4<K1, K2, K3, K4>, b: Key4<K1, K2, K3, K4>,
    h1: K1 -> int32, h2: K2 -> int32, h3: K3 -> int32, h4: K4 -> int32)
    ensures a.Equals(b, Natural(h1), Natural(h2), Natural(h3), Natural(h4)) <==> a == b
  {
  }

  // ------------------------------------------------------------------- Key5

  datatype Key5<K1, K2, K3, K4, K5> = Key5(key1: K1, key2: K2, key3: K3, key4: K4, key5: K5) {

    predicate Equals(other: Key5<K1, K2, K3, K4, K5>,
                     c1: Equatable<K1>, c2: Equatable<K2>, c3: Equatable<K3>, c4: Equatable<K4>, c5: Equatable<K5>) {
      && c1.equals(key1, other.key1) && c2.equals(key2, other.key2) && c3.equals(key3, other.key3)
      && c4.equals(key4, other.key4) && c5.equals(key5, other.key5)
    }

    function EqualsObject(obj: Obj<Key5<K1, K2, K3, K4, K5>>,
                          c1: Equatable<K1>, c2: Equatable<K2>, c3: Equatable<K3>, c4: Equatable<K4>, c5: Equatable<K5>): (r: bool)
      ensures r <==> obj.OfType? && Equals(obj.value, c1, c2, c3, c4, c5)
    {
      match obj
      case OfType(other) => Equals(other, c1, c2, c3, c4, c5)
      case _ => false
    }

    function GetHashCode(c1: Equatable<K1>, c2: Equatable<K2>, c3: Equatable<K3>, c4: Equatable<K4>, c5: Equatable<K5>,
                         combine: (int32, int32, int32, int32, int32) -> int32): (h: int32) {
      combine(c1.hash(key1), c2.hash(key2), c3.hash(key3), c4.hash(key4), c5.hash(key5))
    }
  }

  lemma Key5IsEquivalence<K1(!new), K2(!new), K3(!new), K4(!new), K5(!new)>(
    c1: Equatable<K1>, c2: Equatable<K2>, c3: Equatable<K3>, c4: Equatable<K4>, c5: Equatable<K5>)
    requires IsEquivalence(c1.equals) && IsEquivalence(c2.equals) && IsEquivalence(c3.equals)
    requires IsEquivalence(c4.equals) && IsEquivalence(c5.equals)
    ensures IsEquivalence((a: Key5<K1, K2, K3, K4, K5>, b: Key5<K1, K2, K3, K4, K5>) => a.Equals(b, c1, c2, c3, c4, c5))
  {
  }

  lemma Key5HashAgreesWithEquals<K1(!new), K2(!new), K3(!new), K4(!new), K5(!new)>(
    a: Key5<K1, K2, K3, K4, K5>, b: Key5<K1, K2, K3, K4, K5>,
    c1: Equatable<K1>, c2: Equatable<K2>, c3: Equatable<K3>, c4: Equatable<K4>, c5: Equatable<K5>,
    combine: (int32, int32, int32, int32, int32) -> int32)
    requires HashRespectsEquals(c1) && HashRespectsEquals(c2) && HashRespectsEquals(c3)
    requires HashRespectsEquals(c4) && HashRespectsEquals(c5)
    requires a.Equals(b, c1, c2, c3, c4, c5)
    ensures a.GetHashCode(c1, c2, c3, c4, c5, combine) == b.GetHashCode(c1, c2, c3, c4, c5, combine)
  {
  }

  lemma Key5EqualsIsStructural<K1, K2, K3, K4, K5>(
    a: Key5<K1, K2, K3, K4, K5>, b: Key5<K1, K2, K3, K4, K5>,
    h1: K1 -> int32, h2: K2 -> int32, h3: K3 -> int32, h4: K4 -> int32, h5: K5 -> int32)
    ensures a.Equals(b, Natural(h1), Natural(h2), Natural(h3), Natural(h4), Natural(h5)) <==> a == b
  {
  }

  // ------------------------------------------------------ the unit tests' keys

  /**
   The keys of the repository's key tests, with plain value equality per
   component (a `real` stands for each `float` and `decimal`): keys built from
   the same components are equal, and keys that differ in one position are
   unequal.
   */
  lemma KeyTestExamples(hi: int -> int32, hs: string -> int32, hr: real -> int32, hc: char -> int32)
    ensures Key2(1, "abc").Equals(Key2(1, "abc"), Natural(hi), Natural(hs))
    ensures !Key2(1, "abc").Equals(Key2(2, "abc"), Natural(hi), Natural(hs))
    ensures Key3(1, "abc", 2.0).Equals(Key3(1, "abc", 2.0), Natural(hi), Natural(hs), Natural(hr))
    ensures !Key3(1, "abc", 2.1).Equals(Key3(1, "abc", 2.2), Natural(hi), Natural(hs), Natural(hr))
    ensures Key4(1, "abc", 2.0, 10.5).Equals(Key4(1, "abc", 2.0, 10.5),
                                             Natural(hi), Natural(hs), Natural(hr), Natural(hr))
    ensures !Key4(1, "abc", 2.1, 10.5).Equals(Key4(1, "abc", 2.1, 10.6),
                                              Natural(hi), Natural(hs), Natural(hr), Natural(hr))
    ensures Key5(1, "abc", 2.0, 10.5, 'a').Equals(Key5(1, "abc", 2.0, 10.5, 'a'),
                                                  Natural(hi), Natural(hs), Natural(hr), Natural(hr), Natural(hc))
    ensures !Key5(1, "abc", 2.0, 10.5, 'a').Equals(Key5(1, "abc", 2.0, 10.5, 'b'),
                                                   Natural(hi), Natural(hs), Natural(hr), Natural(hr), Natural(hc))
  {
  }
}
