/**
 The typed identifier wrappers of QueryLite.Utility: six single-field value
 types, one per backing primitive, and the two-valued `Bit`.

 Each wrapper carries a marker type parameter `TYPE` that no field uses: it
 exists only so that, say, `IntKey<Order>` and `IntKey<Customer>` are
 different types that cannot be compared or assigned to one another, although
 both hold one 32-bit integer.

 Every wrapper has
 - `ValueOf`, the factory, and (except `StringKey`) a `ToX` that unwraps a
   nullable wrapper into a nullable primitive;
 - `NotSet`, the sentinel meaning "no identifier" (not for `BoolValue`), and
   `IsValid`, which depends on the value alone;
 - `OpEquality` / `OpInequality`, the overloaded `==` / `!=` on nullable
   wrappers (`W?` is `Option<W>` here);
 - `Equals(W)`, `EqualsObject(object?)` and `GetHashCode`, structural over the
   value; the value's own hash function is a parameter, since .NET leaves it
   unspecified (and randomises it per process for strings).
 */
module Identifiers {
  import opened Primitives
  import opened Comparison

  // ---------------------------------------------------------------- GuidKey

  /** An identifier backed by a GUID. */
  datatype GuidKey<TYPE> = GuidKey(value: Guid) {

    /** `new GuidKey<TYPE>()`: the value is left at its default, the empty GUID. */
    static function Default(): (k: GuidKey<TYPE>)
      ensures k == NotSet()
    {
      GuidKey(EmptyGuid)
    }

    static function ValueOf(value: Guid): (k: GuidKey<TYPE>)
      ensures k.value == value
    {
      GuidKey(value)
    }

    /** `key?.Value`: absent stays absent, present is unwrapped. */
    static function ToGuid(key: Option<GuidKey<TYPE>>): (g: Option<Guid>)
      ensures g.None? <==> key.None?
      ensures key.Some? ==> g == Some(key.value.value)
    {
      match key
      case None => None
      case Some(k) => Some(k.value)
    }

    /** The sentinel: the empty GUID, which no valid key holds. */
    static function NotSet(): (k: GuidKey<TYPE>)
      ensures !k.IsValid()
    {
      GuidKey(EmptyGuid)
    }

    predicate IsValid() {
      value != EmptyGuid
    }

    /**
     `==` on `GuidKey<TYPE>?`: two nulls are equal; otherwise the left operand,
     if present, decides through Nullable<T>.Equals(object?), which answers
     false for a null argument and else calls `EqualsObject`; a null left
     operand against a present right one is unequal.
     */
    static function OpEquality(a: Option<GuidKey<TYPE>>, b: Option<GuidKey<TYPE>>): (r: bool)
      ensures r <==> a == b
    {
      if a.None? && b.None? then true
      else if a.Some? then b.Some? && a.value.EqualsObject(OfType(b.value))
      else false
    }

    /** `!=` on `GuidKey<TYPE>?`, written out branch by branch like `==`. */
    static function OpInequality(a: Option<GuidKey<TYPE>>, b: Option<GuidKey<TYPE>>): (r: bool)
      ensures r == !OpEquality(a, b)
    {
      if a.None? && b.None? then false
      else if a.Some? then !(b.Some? && a.value.EqualsObject(OfType(b.value)))
      else true
    }

    /** `Equals(object?)`: only another `GuidKey<TYPE>` can be equal, by Guid.CompareTo. */
    function EqualsObject(obj: Obj<GuidKey<TYPE>>): (r: bool)
      ensures r <==> obj.OfType? && Equals(obj.value)
    {
      match obj
      case OfType(identifier) => CompareGuid(value, identifier.value) == 0
      case _ => false
    }

    /** `Equals(GuidKey<TYPE>)`. */
    predicate Equals(other: GuidKey<TYPE>) {
      value == other.value
    }

    /** `GetHashCode()`: the hash of the value. */
    function GetHashCode(valueHash: Guid -> int32): (h: int32) {
      valueHash(value)
    }
  }

  /** A GUID key is valid exactly when some byte of its value is non-zero. */
  lemma GuidKeyValidity<TYPE>(k: GuidKey<TYPE>)
    ensures k.IsValid() <==> exists i :: 0 <= i < 16 && k.value[i] != 0
  {
    if forall i :: 0 <= i < 16 ==> k.value[i] == 0 {
      assert k.value == EmptyGuid;
    }
  }

  /** Keys that are `Equals` have the same hash code, whatever the GUID hash. */
  lemma GuidKeyHashAgreesWithEquals<TYPE>(a: GuidKey<TYPE>, b: GuidKey<TYPE>, valueHash: Guid -> int32)
    requires a.Equals(b)
    ensures a.GetHashCode(valueHash) == b.GetHashCode(valueHash)
  {
  }

  // -------------------------------------------------------------- StringKey

  /**
   An identifier backed by a string. The value is a reference that a default
   struct leaves null, so it is an `Option<string>`.
   */
  datatype StringKey<TYPE> = StringKey(value: Option<string>) {

    /**
     `default(StringKey<TYPE>)`: the primary constructor never runs, so the
     value is null; this is not the sentinel, although it is invalid too.
     */
    static function Default(): (k: StringKey<TYPE>)
      ensures !k.IsValid() && k != NotSet()
    {
      StringKey(None)
    }

    static function ValueOf(value: string): (k: StringKey<TYPE>)
      ensures k.value == Some(value)
    {
      StringKey(Some(value))
    }

    /** The sentinel: the empty string. */
    static function NotSet(): (k: StringKey<TYPE>)
      ensures !k.IsValid()
      ensures k.value.Some?
    {
      StringKey(Some(""))
    }

    /** `!string.IsNullOrEmpty(Value)`. */
    predicate IsValid() {
      value.Some? && |value.value| > 0
    }

    /**
     `==` on `StringKey<TYPE>?`. Where both are present the left key's
     `Equals(object?)` calls CompareTo on its value, which throws when that
     value is null.
     */
    static function OpEquality(a: Option<StringKey<TYPE>>, b: Option<StringKey<TYPE>>): (r: Result<bool, Exception>)
      ensures r.Failure? <==> a.Some? && b.Some? && a.value.value.None?
      ensures r.Success? ==> (r.value <==> a == b)
    {
      if a.None? && b.None? then Success(true)
      else if a.Some? then (if b.None? then Success(false) else a.value.EqualsObject(OfType(b.value)))
      else Success(false)
    }

    /** `!=` on `StringKey<TYPE>?`: throws where `==` throws, and is its negation elsewhere. */
    static function OpInequality(a: Option<StringKey<TYPE>>, b: Option<StringKey<TYPE>>): (r: Result<bool, Exception>)
      ensures r.Failure? <==> OpEquality(a, b).Failure?
      ensures r.Success? ==> r.value == !OpEquality(a, b).value
    {
      if a.None? && b.None? then Success(false)
      else if a.Some? then
        (if b.None? then Success(true)
         else match a.value.EqualsObject(OfType(b.value))
              case Success(equal) => Success(!equal)
              case Failure(e) => Failure(e))
      else Success(true)
    }

    /** `Equals(object?)`: another `StringKey<TYPE>` is compared by `Equals`; anything else is unequal. */
    function EqualsObject(obj: Obj<StringKey<TYPE>>): (r: Result<bool, Exception>)
      ensures obj.OfType? ==> r == Equals(obj.value)
      ensures !obj.OfType? ==> r == Success(false)
    {
      match obj
      case OfType(identifier) => Equals(identifier)
      case _ => Success(false)
    }

    /**
     `Equals(StringKey<TYPE>)`: `Value.CompareTo(other.Value) == 0`, which
     throws on a null receiver and sorts a null argument below every string.
     */
    function Equals(other: StringKey<TYPE>): (r: Result<bool, Exception>)
      ensures r.Failure? <==> value.None?
      ensures r.Success? ==> (r.value <==> value == other.value)
    {
      match value
      case None => Failure(NullReferenceException)
      case Some(s) => Success(CompareString(s, other.value) == 0)
    }

    /** `GetHashCode()`: the hash of the value; throws when the value is null. */
    function GetHashCode(valueHash: string -> int32): (h: Result<int32, Exception>)
      ensures h.Failure? <==> value.None?
    {
      match value
      case None => Failure(NullReferenceException)
      case Some(s) => Success(valueHash(s))
    }

    /** `Value ?? ""`. */
    function ToString(): (s: string)
      ensures s == "" <==> !IsValid()
      ensures IsValid() ==> value == Some(s)
    {
      match value
      case None => ""
      case Some(v) => v
    }
  }

  /** String keys found equal by `Equals` have equal hash codes. */
  lemma StringKeyHashAgreesWithEquals<TYPE>(a: StringKey<TYPE>, b: StringKey<TYPE>, valueHash: string -> int32)
    requires a.Equals(b) == Success(true)
    ensures a.GetHashCode(valueHash).Success? && a.GetHashCode(valueHash) == b.GetHashCode(valueHash)
  {
  }

  // --------------------------------------------------------------- ShortKey

  /** An identifier backed by a 16-bit signed integer. */
  datatype ShortKey<TYPE> = ShortKey(value: int16) {

    /** `default(ShortKey<TYPE>)`: zero. */
    static function Default(): (k: ShortKey<TYPE>)
      ensures k == NotSet()
    {
      ShortKey(0)
    }

    static function ValueOf(value: int16): (k: ShortKey<TYPE>)
      ensures k.value == value
    {
      ShortKey(value)
    }

    /** `key?.Value`. */
    static function ToShort(key: Option<ShortKey<TYPE>>): (v: Option<int16>)
      ensures v.None? <==> key.None?
      ensures key.Some? ==> v == Some(key.value.value)
    {
      match key
      case None => None
      case Some(k) => Some(k.value)
    }

    /** The sentinel: zero. */
    static function NotSet(): (k: ShortKey<TYPE>)
      ensures !k.IsValid()
      ensures k.value == 0
    {
      ShortKey(0)
    }

    predicate IsValid() {
      value > 0
    }

    /** `==` on `ShortKey<TYPE>?`, as for `GuidKey`. */
    static function OpEquality(a: Option<ShortKey<TYPE>>, b: Option<ShortKey<TYPE>>): (r: bool)
      ensures r <==> a == b
    {
      if a.None? && b.None? then true
      else if a.Some? then b.Some? && a.value.EqualsObject(OfType(b.value))
      else false
    }

    /** `!=` on `ShortKey<TYPE>?`. */
    static function OpInequality(a: Option<ShortKey<TYPE>>, b: Option<ShortKey<TYPE>>): (r: bool)
      ensures r == !OpEquality(a, b)
    {
      if a.None? && b.None? then false
      else if a.Some? then !(b.Some? && a.value.EqualsObject(OfType(b.value)))
      else true
    }

    /** `Equals(object?)`, by Int16.CompareTo. */
    function EqualsObject(obj: Obj<ShortKey<TYPE>>): (r: bool)
      ensures r <==> obj.OfType? && Equals(obj.value)
    {
      match obj
      case OfType(identifier) => CompareInt(value, identifier.value) == 0
      case _ => false
    }

    predicate Equals(other: ShortKey<TYPE>) {
      value == other.value
    }

    function GetHashCode(valueHash: int16 -> int32): (h: int32) {
      valueHash(value)
    }
  }

  /** Exactly the strictly positive 16-bit values make valid keys. */
  lemma ShortKeyValidity<TYPE>()
    ensures !ShortKey<TYPE>.ValueOf(MinInt16).IsValid()
    ensures ShortKey<TYPE>.ValueOf(1).IsValid() && ShortKey<TYPE>.ValueOf(MaxInt16).IsValid()
    ensures forall v: int16 :: ShortKey<TYPE>.ValueOf(v).IsValid() <==> 1 <= v <= MaxInt16
  {
  }

  lemma ShortKeyHashAgreesWithEquals<TYPE>(a: ShortKey<TYPE>, b: ShortKey<TYPE>, valueHash: int16 -> int32)
    requires a.Equals(b)
    ensures a.GetHashCode(valueHash) == b.GetHashCode(valueHash)
  {
  }

  // ----------------------------------------------------------------- IntKey

  /** An identifier backed by a 32-bit signed integer. */
  datatype IntKey<TYPE> = IntKey(value: int32) {

    /** `default(IntKey<TYPE>)`: zero. */
    static function Default(): (k: IntKey<TYPE>)
      ensures k == NotSet()
    {
      IntKey(0)
    }

    static function ValueOf(value: int32): (k: IntKey<TYPE>)
      ensures k.value == value
    {
      IntKey(value)
    }

    /** `key?.Value`. */
    static function ToInt(key: Option<IntKey<TYPE>>): (v: Option<int32>)
      ensures v.None? <==> key.None?
      ensures key.Some? ==> v == Some(key.value.value)
    {
      match key
      case None => None
      case Some(k) => Some(k.value)
    }

    /** The sentinel: zero. */
    static function NotSet(): (k: IntKey<TYPE>)
      ensures !k.IsValid()
      ensures k.value == 0
    {
      IntKey(0)
    }

    predicate IsValid() {
      value > 0
    }

    /** `==` on `IntKey<TYPE>?`, as for `GuidKey`. */
    static function OpEquality(a: Option<IntKey<TYPE>>, b: Option<IntKey<TYPE>>): (r: bool)
      ensures r <==> a == b
    {
      if a.None? && b.None? then true
      else if a.Some? then b.Some? && a.value.EqualsObject(OfType(b.value))
      else false
    }

    /** `!=` on `IntKey<TYPE>?`. */
    static function OpInequality(a: Option<IntKey<TYPE>>, b: Option<IntKey<TYPE>>): (r: bool)
      ensures r == !OpEquality(a, b)
    {
      if a.None? && b.None? then false
      else if a.Some? then !(b.Some? && a.value.EqualsObject(OfType(b.value)))
      else true
    }

    /** `Equals(object?)`, by Int32.CompareTo. */
    function EqualsObject(obj: Obj<IntKey<TYPE>>): (r: bool)
      ensures r <==> obj.OfType? && Equals(obj.value)
    {
      match obj
      case OfType(identifier) => CompareInt(value, identifier.value) == 0
      case _ => false
    }

    predicate Equals(other: IntKey<TYPE>) {
      value == other.value
    }

    function GetHashCode(valueHash: int32 -> int32): (h: int32) {
      valueHash(value)
    }
  }

  /** Exactly the strictly positive 32-bit values make valid keys. */
  lemma IntKeyValidity<TYPE>()
    ensures !IntKey<TYPE>.ValueOf(MinInt32).IsValid()
    ensures IntKey<TYPE>.ValueOf(1).IsValid() && IntKey<TYPE>.ValueOf(MaxInt32).IsValid()
    ensures forall v: int32 :: IntKey<TYPE>.ValueOf(v).IsValid() <==> 1 <= v <= MaxInt32
  {
  }

  lemma IntKeyHashAgreesWithEquals<TYPE>(a: IntKey<TYPE>, b: IntKey<TYPE>, valueHash: int32 -> int32)
    requires a.Equals(b)
    ensures a.GetHashCode(valueHash) == b.GetHashCode(valueHash)
  {
  }

  // ---------------------------------------------------------------- LongKey

  /** An identifier backed by a 64-bit signed integer. */
  datatype LongKey<TYPE> = LongKey(value: int64) {

    /** `default(LongKey<TYPE>)`: zero. */
    static function Default(): (k: LongKey<TYPE>)
      ensures k == NotSet()
    {
      LongKey(0)
    }

    static function ValueOf(value: int64): (k: LongKey<TYPE>)
      ensures k.value == value
    {
      LongKey(value)
    }

    /** `key?.Value`. */
    static function ToLong(key: Option<LongKey<TYPE>>): (v: Option<int64>)
      ensures v.None? <==> key.None?
      ensures key.Some? ==> v == Some(key.value.value)
    {
      match key
      case None => None
      case Some(k) => Some(k.value)
    }

    /** The sentinel: zero. */
    static function NotSet(): (k: LongKey<TYPE>)
      ensures !k.IsValid()
      ensures k.value == 0
    {
      LongKey(0)
    }

    predicate IsValid() {
      value > 0
    }

    /** `==` on `LongKey<TYPE>?`, as for `GuidKey`. */
    static function OpEquality(a: Option<LongKey<TYPE>>, b: Option<LongKey<TYPE>>): (r: bool)
      ensures r <==> a == b
    {
      if a.None? && b.None? then true
      else if a.Some? then b.Some? && a.value.EqualsObject(OfType(b.value))
      else false
    }

    /** `!=` on `LongKey<TYPE>?`. */
    static function OpInequality(a: Option<LongKey<TYPE>>, b: Option<LongKey<TYPE>>): (r: bool)
      ensures r == !OpEquality(a, b)
    {
      if a.None? && b.None? then false
      else if a.Some? then !(b.Some? && a.value.EqualsObject(OfType(b.value)))
      else true
    }

    /** `Equals(object?)`, by Int64.CompareTo. */
    function EqualsObject(obj: Obj<LongKey<TYPE>>): (r: bool)
      ensures r <==> obj.OfType? && Equals(obj.value)
    {
      match obj
      case OfType(identifier) => CompareInt(value, identifier.value) == 0
      case _ => false
    }

    predicate Equals(other: LongKey<TYPE>) {
      value == other.value
    }

    function GetHashCode(valueHash: int64 -> int32): (h: int32) {
      valueHash(value)
    }
  }

  /** Exactly the strictly positive 64-bit values make valid keys. */
  lemma LongKeyValidity<TYPE>()
    ensures !LongKey<TYPE>.ValueOf(MinInt64).IsValid()
    ensures LongKey<TYPE>.ValueOf(1).IsValid() && LongKey<TYPE>.ValueOf(MaxInt64).IsValid()
    ensures forall v: int64 :: LongKey<TYPE>.ValueOf(v).IsValid() <==> 1 <= v <= MaxInt64
  {
  }

  lemma LongKeyHashAgreesWithEquals<TYPE>(a: LongKey<TYPE>, b: LongKey<TYPE>, valueHash: int64 -> int32)
    requires a.Equals(b)
    ensures a.GetHashCode(valueHash) == b.GetHashCode(valueHash)
  {
  }

  // -------------------------------------------------------------- BoolValue

  /** A typed boolean. It has no sentinel: both values are valid. */
  datatype BoolValue<TYPE> = BoolValue(value: bool) {

    static function ValueOf(value: bool): (k: BoolValue<TYPE>)
      ensures k.value == value
      ensures k.IsValid()
    {
      BoolValue(value)
    }

    /** `key?.Value`. */
    static function ToBool(key: Option<BoolValue<TYPE>>): (v: Option<bool>)
      ensures v.None? <==> key.None?
      ensures key.Some? ==> v == Some(key.value.value)
    {
      match key
      case None => None
      case Some(k) => Some(k.value)
    }

    predicate IsValid() {
      true
    }

    /** `==` on `BoolValue<TYPE>?`, as for `GuidKey`. */
    static function OpEquality(a: Option<BoolValue<TYPE>>, b: Option<BoolValue<TYPE>>): (r: bool)
      ensures r <==> a == b
    {
      if a.None? && b.None? then true
      else if a.Some? then b.Some? && a.value.EqualsObject(OfType(b.value))
      else false
    }

    /** `!=` on `BoolValue<TYPE>?`. */
    static function OpInequality(a: Option<BoolValue<TYPE>>, b: Option<BoolValue<TYPE>>): (r: bool)
      ensures r == !OpEquality(a, b)
    {
      if a.None? && b.None? then false
      else if a.Some? then !(b.Some? && a.value.EqualsObject(OfType(b.value)))
      else true
    }

    /** `Equals(object?)`, by Boolean.CompareTo. */
    function EqualsObject(obj: Obj<BoolValue<TYPE>>): (r: bool)
      ensures r <==> obj.OfType? && Equals(obj.value)
    {
      match obj
      case OfType(other) => CompareBool(value, other.value) == 0
      case _ => false
    }

    predicate Equals(other: BoolValue<TYPE>) {
      value == other.value
    }

    function GetHashCode(valueHash: bool -> int32): (h: int32) {
      valueHash(value)
    }
  }

  lemma BoolValueHashAgreesWithEquals<TYPE>(a: BoolValue<TYPE>, b: BoolValue<TYPE>, valueHash: bool -> int32)
    requires a.Equals(b)
    ensures a.GetHashCode(valueHash) == b.GetHashCode(valueHash)
  {
  }

  // -------------------------------------------------------------------- Bit

  /** A flag with a dedicated one-byte wire form; no marker type. */
  datatype Bit = Bit(value: bool) {

    static const TRUE: Bit := Bit(true)
    static const FALSE: Bit := Bit(false)

    /** `new Bit()`: the value is left at its default, false. */
    static function Default(): (b: Bit)
      ensures !b.value
    {
      FALSE
    }

    /** One of the two shared instances, chosen by `value`. */
    static function ValueOf(value: bool): (b: Bit)
      ensures b.value == value
      ensures b == TRUE || b == FALSE
    {
      if value then TRUE else FALSE
    }

    function ToString(): (s: string)
      ensures s == "1" <==> value
      ensures s == "0" <==> !value
    {
      if value then "1" else "0"
    }
  }

  /** The text of a `Bit` determines it. */
  lemma BitToStringInjective(a: Bit, b: Bit)
    requires a.ToString() == b.ToString()
    ensures a == b
  {
  }
}
