/**
 The .NET primitive values the identifier wrappers, composite keys and
 formatters are built on: fixed-width integers as bounded subsets of `int`,
 a byte, a GUID as its 16 bytes, and the stock Option/Result datatypes that
 stand in for nullable values and thrown exceptions.
 */
module Primitives {

  newtype byte = x: int | 0 <= x < 0x100

  /** System.Int16 (`short`). */
  type int16 = x: int | -0x8000 <= x < 0x8000
  /** System.Int32 (`int`); also the type of every hash code. */
  type int32 = x: int | -0x8000_0000 <= x < 0x8000_0000
  /** System.Int64 (`long`). */
  type int64 = x: int | -0x8000_0000_0000_0000 <= x < 0x8000_0000_0000_0000

  const MinInt16: int16 := -0x8000
  const MaxInt16: int16 := 0x7FFF
  const MinInt32: int32 := -0x8000_0000
  const MaxInt32: int32 := 0x7FFF_FFFF
  const MinInt64: int64 := -0x8000_0000_0000_0000
  const MaxInt64: int64 := 0x7FFF_FFFF_FFFF_FFFF

  /** System.Guid, as its 16 bytes. */
  type Guid = s: seq<byte> | |s| == 16 witness EmptyGuid

  /** Guid.Empty: all 16 bytes zero. */
  const EmptyGuid: seq<byte> := [0, 0, 0, 0, 0, 0, 0, 0, 0, 0, 0, 0, 0, 0, 0, 0]

  /** A `T?`: absent (null) or present. */
  datatype Option<+T> = None | Some(value: T)

  /** The outcome of an operation that either returns a value or throws. */
  datatype Result<+R, +E> = Success(value: R) | Failure(error: E)

  /**
   The `object? obj` argument of an `Equals(object?)` override whose type test
   is `obj is W`: a null reference, a boxed `W`, or an object of another type.
   */
  datatype Obj<+W> = NullRef | OfType(value: W) | OtherType

  /** The exceptions the modelled code can raise itself. */
  datatype Exception = NullReferenceException
}
