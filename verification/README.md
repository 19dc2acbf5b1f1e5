# QueryLite.Utility identifiers, composite keys and the `Bit` codec, in Dafny

This project models three small value components of QueryLite.Utility and
proves what they promise.

- **Typed identifier wrappers.** `GuidKey`, `StringKey`, `ShortKey`, `IntKey`,
  `LongKey` and `BoolValue` each hold one value. Each carries a marker type
  parameter `TYPE` that no field uses, so `IntKey<A>` and `IntKey<B>` are
  different Dafny types and cannot be mixed. `Bit` is an unmarked flag. Each
  wrapper is a datatype (module `Identifiers`) with these members:
  - `ValueOf`; the `ToX` unwrapping of a nullable wrapper (not for
    `StringKey`, which has none); `Default`, the default struct (not for
    `BoolValue`);
  - `NotSet` (not for `BoolValue`, which has no sentinel) and `IsValid`;
  - the overloaded `==`/`!=` on nullable wrappers (`OpEquality`/`OpInequality`,
    with `W?` as `Option<W>`);
  - `Equals(W)`, `EqualsObject(object?)` and `GetHashCode`.

  The `CompareTo` calls inside `EqualsObject` are modelled in module
  `Comparison`.
- **Composite dictionary keys.** `Key<K1..Kn>` for n = 2..5 are `Key2` to
  `Key5` in module `Keys`.
  - A component type's `IEquatable<K>.Equals` and `GetHashCode` are passed in
    as an `Equatable<K>`.
  - `HashCode.Combine` is a parameter. Nothing proved depends on what it
    computes.
- **The `Bit` formatter.** Module `MessagePackFormatters` holds this codec.
  - The library's writer and reader are classes. The writer appends bytes. The
    reader walks a byte array with a position and a nesting depth.
  - `Serialize` and `Deserialize` are methods that change them. Their contracts
    are stated against `EncodeBit` and `DecodeBit`, and the round trip,
    depth balance, nil handling and refusal of other codes are proved about
    those two functions.

How the code behaves where one might expect otherwise:

- The nullable `==` only calls the left operand's `Equals`, but it is still
  symmetric. When the left operand is present, `Nullable<T>.Equals(object?)`
  answers false for a null right operand before calling the struct's
  `Equals(object?)`. Every `OpEquality` therefore ensures `r <==> a == b`,
  apart from the `StringKey` exception below.
- `StringKey` holds a reference that a default struct leaves null. On such a
  key, `Equals` and `GetHashCode` throw a `NullReferenceException`, and so do
  `==` and `!=` when both operands are present and the left one holds null. A
  null on the right only makes the comparison false. These exceptions are
  modelled as `Failure` results.
- `StringKey.Default()` (null) and `StringKey.NotSet()` (`""`) are two
  different keys. Both are invalid.
- `Deserialize` does not leave the depth unchanged on every path. When the
  byte after the depth step is not a bool, `ReadBoolean` throws before
  `reader.Depth--` runs, so the reader is left one level deeper. Successful
  reads do leave the depth unchanged.

## Model

| member | source | states |
|---|---|---|
| `Comparison.CompareInt` | QueryLite.Utility/Identifiers.cs:250 | integer `CompareTo` is negative, zero or positive exactly when the receiver is smaller, equal or larger |
| `Comparison.CompareBool` | QueryLite.Utility/Identifiers.cs:420 | boolean `CompareTo` is zero exactly for equal values, negative exactly for false against true |
| `Comparison.LexCompareZeroIff` | QueryLite.Utility/Identifiers.cs:192 | a lexicographic comparison is zero exactly for equal sequences when the element comparison is zero exactly for equal elements (by induction) |
| `Comparison.CompareString` | QueryLite.Utility/Identifiers.cs:200 | `string.CompareTo(string?)` is zero exactly when the argument is the same, non-null string |
| `Comparison.CompareGuid` | QueryLite.Utility/Identifiers.cs:138 | `Guid.CompareTo` is zero exactly for equal GUIDs |
| `Identifiers.GuidKey.Default` | QueryLite.Utility/Identifiers.cs:95 | the parameterless constructor gives the `NotSet` key |
| `Identifiers.GuidKey.ValueOf` | QueryLite.Utility/Identifiers.cs:100 | the factory's key holds exactly the given GUID |
| `Identifiers.GuidKey.ToGuid` | QueryLite.Utility/Identifiers.cs:102 | an absent key gives an absent GUID, a present key its value |
| `Identifiers.GuidKey.NotSet` | QueryLite.Utility/Identifiers.cs:109-112 | the sentinel (empty GUID) is not valid |
| `Identifiers.GuidKeyValidity` | QueryLite.Utility/Identifiers.cs:112 | a GUID key is valid exactly when some byte of its value is non-zero |
| `Identifiers.GuidKey.OpEquality` | QueryLite.Utility/Identifiers.cs:114-123 | nullable `==` is true exactly when both are null or both hold equal values, so it is symmetric |
| `Identifiers.GuidKey.OpInequality` | QueryLite.Utility/Identifiers.cs:124-133 | nullable `!=` is the negation of `==` for every pair |
| `Identifiers.GuidKey.EqualsObject` | QueryLite.Utility/Identifiers.cs:135-141 | `Equals(object?)` holds exactly for a `GuidKey<TYPE>` that is `Equals` (equal value, line 146) |
| `Identifiers.GuidKeyHashAgreesWithEquals` | QueryLite.Utility/Identifiers.cs:142-146 | `Equals` keys have equal hash codes, whatever the GUID hash function |
| `Identifiers.StringKey.Default` | QueryLite.Utility/Identifiers.cs:150-154 | the default struct (null value) is invalid and differs from `NotSet` |
| `Identifiers.StringKey.ValueOf` | QueryLite.Utility/Identifiers.cs:158 | the factory's key holds exactly the given string |
| `Identifiers.StringKey.NotSet` | QueryLite.Utility/Identifiers.cs:163-166 | the sentinel (`""`, not null) is not valid |
| `Identifiers.StringKey.OpEquality` | QueryLite.Utility/Identifiers.cs:168-177 | nullable `==` throws exactly when both are present and the left value is null; otherwise it is true exactly for equal operands |
| `Identifiers.StringKey.OpInequality` | QueryLite.Utility/Identifiers.cs:178-187 | nullable `!=` throws exactly where `==` does and is its negation elsewhere |
| `Identifiers.StringKey.EqualsObject` | QueryLite.Utility/Identifiers.cs:189-195 | `Equals(object?)` agrees with `Equals(StringKey)` for a `StringKey<TYPE>` and is false for anything else |
| `Identifiers.StringKey.Equals` | QueryLite.Utility/Identifiers.cs:200 | throws exactly on a null value; otherwise true exactly when the two values are equal (a null argument never is) |
| `Identifiers.StringKey.GetHashCode` | QueryLite.Utility/Identifiers.cs:196 | throws exactly on a null value |
| `Identifiers.StringKeyHashAgreesWithEquals` | QueryLite.Utility/Identifiers.cs:196-200 | keys that are `Equals` have equal hash codes |
| `Identifiers.StringKey.ToString` | QueryLite.Utility/Identifiers.cs:198 | the text is empty exactly for an invalid key (null or empty), and is the value of a valid one |
| `Identifiers.ShortKey.Default` | QueryLite.Utility/Identifiers.cs:204-208 | the default struct is the `NotSet` key |
| `Identifiers.ShortKey.ValueOf` | QueryLite.Utility/Identifiers.cs:212 | the factory's key holds exactly the given value |
| `Identifiers.ShortKey.ToShort` | QueryLite.Utility/Identifiers.cs:214 | an absent key gives an absent value, a present key its value |
| `Identifiers.ShortKey.NotSet` | QueryLite.Utility/Identifiers.cs:221 | the sentinel (zero) is not valid |
| `Identifiers.ShortKeyValidity` | QueryLite.Utility/Identifiers.cs:223-224 | valid exactly for 1..32767; `MinValue` is invalid, 1 and `MaxValue` are valid |
| `Identifiers.ShortKey.OpEquality` | QueryLite.Utility/Identifiers.cs:226-235 | nullable `==` is true exactly for two nulls or equal values |
| `Identifiers.ShortKey.OpInequality` | QueryLite.Utility/Identifiers.cs:236-245 | nullable `!=` is the negation of `==` |
| `Identifiers.ShortKey.EqualsObject` | QueryLite.Utility/Identifiers.cs:247-253 | `Equals(object?)` holds exactly for a `ShortKey<TYPE>` that is `Equals` (line 258) |
| `Identifiers.ShortKeyHashAgreesWithEquals` | QueryLite.Utility/Identifiers.cs:254-258 | `Equals` keys have equal hash codes |
| `Identifiers.IntKey.Default` | QueryLite.Utility/Identifiers.cs:262-266 | the default struct is the `NotSet` key |
| `Identifiers.IntKey.ValueOf` | QueryLite.Utility/Identifiers.cs:270 | the factory's key holds exactly the given value |
| `Identifiers.IntKey.ToInt` | QueryLite.Utility/Identifiers.cs:272 | an absent key gives an absent value, a present key its value |
| `Identifiers.IntKey.NotSet` | QueryLite.Utility/Identifiers.cs:279 | the sentinel (zero) is not valid |
| `Identifiers.IntKeyValidity` | QueryLite.Utility/Identifiers.cs:281-282 | valid exactly for 1..2147483647; `MinValue` is invalid, 1 and `MaxValue` are valid |
| `Identifiers.IntKey.OpEquality` | QueryLite.Utility/Identifiers.cs:284-293 | nullable `==` is true exactly for two nulls or equal values |
| `Identifiers.IntKey.OpInequality` | QueryLite.Utility/Identifiers.cs:294-303 | nullable `!=` is the negation of `==` |
| `Identifiers.IntKey.EqualsObject` | QueryLite.Utility/Identifiers.cs:305-311 | `Equals(object?)` holds exactly for an `IntKey<TYPE>` that is `Equals` (line 316) |
| `Identifiers.IntKeyHashAgreesWithEquals` | QueryLite.Utility/Identifiers.cs:312-316 | `Equals` keys have equal hash codes |
| `Identifiers.LongKey.Default` | QueryLite.Utility/Identifiers.cs:320-324 | the default struct is the `NotSet` key |
| `Identifiers.LongKey.ValueOf` | QueryLite.Utility/Identifiers.cs:328 | the factory's key holds exactly the given value |
| `Identifiers.LongKey.ToLong` | QueryLite.Utility/Identifiers.cs:330 | an absent key gives an absent value, a present key its value |
| `Identifiers.LongKey.NotSet` | QueryLite.Utility/Identifiers.cs:337 | the sentinel (zero) is not valid |
| `Identifiers.LongKeyValidity` | QueryLite.Utility/Identifiers.cs:339-340 | valid exactly for 1..2^63-1; `MinValue` is invalid, 1 and `MaxValue` are valid |
| `Identifiers.LongKey.OpEquality` | QueryLite.Utility/Identifiers.cs:342-351 | nullable `==` is true exactly for two nulls or equal values |
| `Identifiers.LongKey.OpInequality` | QueryLite.Utility/Identifiers.cs:352-361 | nullable `!=` is the negation of `==` |
| `Identifiers.LongKey.EqualsObject` | QueryLite.Utility/Identifiers.cs:363-369 | `Equals(object?)` holds exactly for a `LongKey<TYPE>` that is `Equals` (line 374) |
| `Identifiers.LongKeyHashAgreesWithEquals` | QueryLite.Utility/Identifiers.cs:370-374 | `Equals` keys have equal hash codes |
| `Identifiers.BoolValue.ValueOf` | QueryLite.Utility/Identifiers.cs:386-391 | the factory's value holds exactly the given bool and is valid, for true and false alike |
| `Identifiers.BoolValue.ToBool` | QueryLite.Utility/Identifiers.cs:388 | an absent value gives an absent bool, a present one its value |
| `Identifiers.BoolValue.OpEquality` | QueryLite.Utility/Identifiers.cs:396-405 | nullable `==` is true exactly for two nulls or equal values |
| `Identifiers.BoolValue.OpInequality` | QueryLite.Utility/Identifiers.cs:406-415 | nullable `!=` is the negation of `==` |
| `Identifiers.BoolValue.EqualsObject` | QueryLite.Utility/Identifiers.cs:417-423 | `Equals(object?)` holds exactly for a `BoolValue<TYPE>` that is `Equals` (line 428) |
| `Identifiers.BoolValueHashAgreesWithEquals` | QueryLite.Utility/Identifiers.cs:424-428 | `Equals` values have equal hash codes |
| `Identifiers.Bit.Default` | QueryLite.Utility/Identifiers.cs:432-437 | `new Bit()` holds false |
| `Identifiers.Bit.ValueOf` | QueryLite.Utility/Identifiers.cs:434-439 | `ValueOf(b)` is one of the two shared instances and holds `b` |
| `Identifiers.Bit.ToString` | QueryLite.Utility/Identifiers.cs:441 | the text is `"1"` exactly for true and `"0"` exactly for false |
| `Identifiers.BitToStringInjective` | QueryLite.Utility/Identifiers.cs:441 | two bits with the same text are the same bit |
| `Keys.Key2.EqualsObject` | Keys.cs:40-46 | `Equals(object?)` holds exactly for a `Key<K1,K2>` that is `Equals` |
| `Keys.Key2IsEquivalence` | Keys.cs:47-49 | key equality is reflexive, symmetric and transitive when each component's equality is |
| `Keys.Key2HashAgreesWithEquals` | Keys.cs:50-52 | `Equals` keys have equal hash codes when each component's hash agrees with its equality, for any combine function |
| `Keys.Key2EqualsIsStructural` | Keys.cs:33-49 | with plain component equality, keys are equal exactly when built from the same components in the same positions |
| `Keys.Key3.EqualsObject` | Keys.cs:69-75 | as for `Key2`, with three components |
| `Keys.Key3IsEquivalence` | Keys.cs:76-78 | key equality is an equivalence when each component's equality is |
| `Keys.Key3HashAgreesWithEquals` | Keys.cs:79-81 | `Equals` keys have equal hash codes |
| `Keys.Key3EqualsIsStructural` | Keys.cs:60-78 | with plain component equality, keys are equal exactly when positionally identical |
| `Keys.Key4.EqualsObject` | Keys.cs:100-106 | as for `Key2`, with four components |
| `Keys.Key4IsEquivalence` | Keys.cs:107-109 | key equality is an equivalence when each component's equality is |
| `Keys.Key4HashAgreesWithEquals` | Keys.cs:110-112 | `Equals` keys have equal hash codes |
| `Keys.Key4EqualsIsStructural` | Keys.cs:89-109 | with plain component equality, keys are equal exactly when positionally identical |
| `Keys.Key5.EqualsObject` | Keys.cs:133-139 | as for `Key2`, with five components |
| `Keys.Key5IsEquivalence` | Keys.cs:140-142 | key equality is an equivalence when each component's equality is |
| `Keys.Key5HashAgreesWithEquals` | Keys.cs:143-145 | `Equals` keys have equal hash codes |
| `Keys.Key5EqualsIsStructural` | Keys.cs:120-142 | with plain component equality, keys are equal exactly when positionally identical |
| `Keys.KeyTestExamples` | Test/KeyTests.cs:9-117 | the keys of the unit tests: identical components give equal keys, one differing position gives unequal keys |
| `MessagePackFormatters.MessagePackWriter.Write` | QueryLite.Utility/MessagePackFormatters.cs:13 | writing a bool appends exactly its one-byte code, 0xc3 or 0xc2 |
| `MessagePackFormatters.MessagePackReader.TryReadNil` | QueryLite.Utility/MessagePackFormatters.cs:18 | consumes one byte exactly when it is nil; throws at the end of the data; depth untouched |
| `MessagePackFormatters.DepthStep` | QueryLite.Utility/MessagePackFormatters.cs:22 | fails at or beyond the maximum depth, otherwise raises the depth by one; position untouched |
| `MessagePackFormatters.MessagePackReader.ReadBoolean` | QueryLite.Utility/MessagePackFormatters.cs:24 | consumes one byte: 0xc3 is true, 0xc2 false, anything else throws; depth untouched |
| `MessagePackFormatters.EncodeBit` | QueryLite.Utility/MessagePackFormatters.cs:12-14 | a bit is written as one byte, never nil: 0xc3 for true and 0xc2 for false |
| `MessagePackFormatters.DecodeBit` | QueryLite.Utility/MessagePackFormatters.cs:16-27 | reading succeeds exactly on nil, or on a bool byte below the depth limit; a success consumes one byte, leaves the depth as it was, and is true exactly for 0xc3 |
| `MessagePackFormatters.Serialize` | QueryLite.Utility/MessagePackFormatters.cs:12-14 | appends `EncodeBit(value)` to what was written |
| `MessagePackFormatters.Deserialize` | QueryLite.Utility/MessagePackFormatters.cs:16-27 | result, position and depth afterwards are those of `DecodeBit` on the reader's data, position and depth |
| `MessagePackFormatters.SerializeThenDeserialize` | Test/BitSerialisationTests.cs:9-17 | serializing and deserializing a bit gives it back from one byte, unless the depth limit is below one |
| `MessagePackFormatters.DecodeEncodedBit` | QueryLite.Utility/MessagePackFormatters.cs:12-26 | round trip: the byte written for a bit, anywhere in a stream, reads back as that bit, consuming one byte and leaving the depth unchanged |
| `MessagePackFormatters.DecodeNil` | QueryLite.Utility/MessagePackFormatters.cs:18-20 | a nil byte reads as the default `Bit` (false) at any depth, consuming one byte |
| `MessagePackFormatters.DecodeOtherCode` | QueryLite.Utility/MessagePackFormatters.cs:22-25 | any other byte is refused; below the depth limit the reader ends one byte on and one level deeper |

Some members that model source code carry no contract of their own and have
no row; what they promise is stated in other rows above:

- `IsValid` of every wrapper: in the `NotSet` and `...Validity` rows.
- The typed `Equals` of `GuidKey`, `ShortKey`, `IntKey`, `LongKey` and
  `BoolValue` (Identifiers.cs:146, 258, 316, 374, 428): in the `EqualsObject`,
  `OpEquality` and `...HashAgreesWithEquals` rows.
- `GetHashCode` of those five wrappers (Identifiers.cs:142, 254, 312, 370, 424): in the `...HashAgreesWithEquals` rows.
- `Keys.Key2.Equals` to `Keys.Key5.Equals` (Keys.cs:47-49, 76-78, 107-109,
  140-142): in the `Keys.Key2IsEquivalence` … `Keys.Key5IsEquivalence`,
  `Keys.Key2EqualsIsStructural` … `Keys.Key5EqualsIsStructural` and
  `EqualsObject` rows.
- `Keys.Key2.GetHashCode` to `Keys.Key5.GetHashCode` (Keys.cs:50-52, 79-81,
  110-112, 143-145): in the `Keys.Key2HashAgreesWithEquals` …
  `Keys.Key5HashAgreesWithEquals` rows.

## Left out

- `Parse` on `GuidKey`, `ShortKey`, `IntKey` and `LongKey` (Identifiers.cs:104, 216, 274, 332) is not modelled. These methods only forward to `Guid.Parse` and `short`/`int`/`long.Parse`, whose grammar and culture handling are not part of this model.
- `ToString` of the GUID, integer and bool wrappers is not modelled. It defers to .NET's formatting (culture-dependent for the integers). `StringKey.ToString` and `Bit.ToString` are modelled.
- The formatters of the six wrappers (`GuidKeyFormatter` and the others) are not part of this model. Only their attributes are visible (Identifiers.cs:86, 149, 203, 261, 319, 377).
- JSON and MessagePack attributes, the `IValue`/`IValueOf`/`ICustomType`/`IKeyValue` interfaces, `DataType` and `GetValueAsObject` are left out. They are metadata and reflection with no behaviour.
- `Comparison.CompareString`: .NET's culture-sensitive string collation is replaced by ordinal order. Only whether the result is zero is used, and that is taken to mean "same characters".
- `Identifiers.StringKeyHashAgreesWithEquals`: holds only under the ordinal equality of `Comparison.CompareString`. In .NET, `StringKey.Equals` goes through culture-sensitive `string.CompareTo` while `GetHashCode` uses ordinal `string.GetHashCode`, so two strings that are culture-equal but differ in their characters (one with an ignorable soft hyphen, say) are `Equals` yet may hash differently.
- `Comparison.CompareGuid`: compares the 16 bytes in storage order, not in .NET's field-by-field order. Only whether the result is zero is used.
- Primitive `GetHashCode` and `HashCode.Combine` are function parameters, so their values stay unspecified. No order-sensitivity or particular hash value is claimed.
- The per-position short-circuit order of key `Equals` is not modelled. With non-null components, component `Equals` has no side effects, so the order cannot be observed. With a null component it can: `Key(1, null)` against `Key(2, null)` is false, while `Key(1, null)` against `Key(1, null)` throws.
- `Keys.Key2.Equals` to `Keys.Key5.Equals`, `Keys.Key2.EqualsObject` to `Keys.Key5.EqualsObject`, `Keys.Key2IsEquivalence` to `Keys.Key5IsEquivalence` and `Keys.Key2EqualsIsStructural` to `Keys.Key5EqualsIsStructural`: components are assumed non-null, as the `notnull` constraints on `K1` … `K5` declare (Keys.cs:31). A default key (`default(Key<string, int>)`) leaves a reference-type component null; on it `Equals` and `Equals(object?)` throw a `NullReferenceException` when they reach that position, which these members do not model (`GetHashCode` does not throw, since `HashCode.Combine` hashes null as 0).
- The unit tests' `float` and `decimal` key components are `real` in `Keys.KeyTestExamples`.
- `MessagePackFormatters.DepthStep` models the library's depth check. The depth limit comes from the options, and the library's own code is not part of this model.
- `MessagePackFormatters.MessagePackReader.ReadBoolean`: that the byte is consumed before a code other than 0xc2/0xc3 is refused (position + 1 on that failure, also in `MessagePackFormatters.DecodeBit` and `MessagePackFormatters.DecodeOtherCode`) is an assumption about the library's reader, whose code is not part of this model. The formatter never uses the position after that exception.
- `MessagePackFormatters.MessagePackReader` and `MessagePackWriter` model only the operations the `Bit` formatter uses, over an in-memory buffer. The library's segmented buffers and its other read and write operations are left out.
- Nullable `Bit?` serialization is handled by MessagePack's own nullable formatter, not by the code modelled here, so it is left out.
