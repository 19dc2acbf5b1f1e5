/**
 The `CompareTo` methods of the primitives that the identifier wrappers'
 `Equals(object?)` overrides call. Only the sign of a comparison is modelled:
 negative when the receiver sorts first, zero when the two are equal,
 positive when the receiver sorts last. Strings and GUIDs are compared
 lexicographically, element by element.
 */
module Comparison {
  import opened Primitives

  /** Int16/Int32/Int64.CompareTo: the sign of `x - y`. */
  function CompareInt(x: int, y: int): (r: int)
    ensures r < 0 <==> x < y
    ensures r == 0 <==> x == y
    ensures r > 0 <==> y < x
  {
    if x < y then -1 else if y < x then 1 else 0
  }

  /** Boolean.CompareTo: `false` sorts before `true`. */
  function CompareBool(x: bool, y: bool): (r: int)
    ensures r == 0 <==> x == y
    ensures r < 0 <==> !x && y
  {
    if x == y then 0 else if !x then -1 else 1
  }

  /**
   Lexicographic comparison of two sequences, the elements compared by `cmp`;
   a proper prefix sorts first.
   */
  function LexCompare<T>(a: seq<T>, b: seq<T>, cmp: (T, T) -> int): (r: int)
    decreases |a|
  {
    if |a| == 0 then (if |b| == 0 then 0 else -1)
    else if |b| == 0 then 1
    else if cmp(a[0], b[0]) != 0 then cmp(a[0], b[0])
    else LexCompare(a[1..], b[1..], cmp)
  }

  /**
   A lexicographic comparison reports "equal" exactly for equal sequences,
   provided the element comparison does so for elements.
   */
  lemma {:induction false} LexCompareZeroIff<T>(a: seq<T>, b: seq<T>, cmp: (T, T) -> int)
    requires forall x, y :: cmp(x, y) == 0 <==> x == y
    ensures LexCompare(a, b, cmp) == 0 <==> a == b
    decreases |a|
  {
    if |a| > 0 && |b| > 0 && cmp(a[0], b[0]) == 0 {
      LexCompareZeroIff(a[1..], b[1..], cmp);
      assert a == [a[0]] + a[1..] && b == [b[0]] + b[1..];
    }
  }

  /** Comparing one character by its UTF-16 code unit. */
  function CompareChar(x: char, y: char): (r: int) {
    CompareInt(x as int, y as int)
  }

  /**
   String.CompareTo(string?): a null argument sorts first, so any string
   compares greater than null. The culture-sensitive collation of .NET is
   replaced by ordinal order.
   */
  function CompareString(s: string, other: Option<string>): (r: int)
    ensures r == 0 <==> other == Some(s)
  {
    match other
    case None => 1
    case Some(t) =>
      LexCompareZeroIff(s, t, CompareChar);
      LexCompare(s, t, CompareChar)
  }

  /** Comparing one byte of a GUID. */
  function CompareByte(x: byte, y: byte): (r: int) {
    CompareInt(x as int, y as int)
  }

  /** Guid.CompareTo(Guid): lexicographic over the 16 bytes. */
  function CompareGuid(g: Guid, h: Guid): (r: int)
    ensures r == 0 <==> g == h
  {
    LexCompareZeroIff(g, h, CompareByte);
    LexCompare(g, h, CompareByte)
  }
}
