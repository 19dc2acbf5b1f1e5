/**
 The MessagePack formatter for `Bit`. A `Bit` travels as one byte of the
 MessagePack "bool" format family (0xc2 false, 0xc3 true); on the way back a
 "nil" byte (0xc0) is also accepted and yields the default `Bit`.

 The library's writer and reader, which the formatter changes through `ref`
 parameters, are classes here: the writer owns the bytes written so far; the
 reader walks a byte array with a position and keeps the nesting depth that
 formatters raise on entry and lower on exit.
 */
module MessagePackFormatters {
  import opened Primitives
  import opened Identifiers

  /** The single-byte codes of the MessagePack specification used here. */
  const NilCode: byte := 0xc0
  const FalseCode: byte := 0xc2
  const TrueCode: byte := 0xc3

  /** Why reading fails, each standing for the exception the library throws. */
  datatype DecodeError =
    | EndOfStream                // no byte left where one is needed
    | DepthExceeded              // the object graph nests deeper than the options allow
    | UnexpectedCode(code: byte) // the byte is not of the expected format family

  /** `MessagePackSerializerOptions.Security`; only the depth limit matters to a `Bit`. */
  datatype SecurityOptions = SecurityOptions(maximumObjectGraphDepth: int)

  // ----------------------------------------------------------------- writer

  /** MessagePackWriter: an append-only byte sink. */
  class MessagePackWriter {
    var written: seq<byte>

    constructor ()
      ensures written == []
    {
      written := [];
    }

    /** `Write(bool)`: the one-byte bool form. */
    method Write(value: bool)
      modifies this
      ensures written == old(written) + [if value then TrueCode else FalseCode]
    {
      written := written + [if value then TrueCode else FalseCode];
    }
  }

  // ----------------------------------------------------------------- reader

  /** MessagePackReader over a byte array: the next byte to read and the nesting depth. */
  class MessagePackReader {
    const data: array<byte>
    var pos: nat
    var depth: int

    ghost predicate Valid()
      reads this
    {
      pos <= data.Length
    }

    /** A reader at the start of `bytes`, at depth zero. */
    constructor (bytes: seq<byte>)
      ensures Valid() && fresh(data)
      ensures data[..] == bytes && pos == 0 && depth == 0
    {
      data := new byte[|bytes|](i requires 0 <= i < |bytes| => bytes[i]);
      pos, depth := 0, 0;
    }

    /**
     `TryReadNil()`: consumes the next byte if it is nil. Peeking at the end
     of the data throws.
     */
    method TryReadNil() returns (r: Result<bool, DecodeError>)
      requires Valid()
      modifies this
      ensures Valid() && depth == old(depth)
      ensures old(pos) == data.Length ==> r == Failure(EndOfStream) && pos == old(pos)
      ensures old(pos) < data.Length ==>
                && r == Success(data[old(pos)] == NilCode)
                && pos == (if data[old(pos)] == NilCode then old(pos) + 1 else old(pos))
    {
      if pos == data.Length {
        return Failure(EndOfStream);
      }
      if data[pos] == NilCode {
        pos := pos + 1;
        return Success(true);
      }
      return Success(false);
    }

    /**
     `ReadBoolean()`: consumes the next byte and decodes it; any code other
     than the two bool forms throws.
     */
    method ReadBoolean() returns (r: Result<bool, DecodeError>)
      requires Valid()
      modifies this
      ensures Valid() && depth == old(depth)
      ensures old(pos) == data.Length ==> r == Failure(EndOfStream) && pos == old(pos)
      ensures old(pos) < data.Length ==>
                && pos == old(pos) + 1
                && r == (if data[old(pos)] == TrueCode then Success(true)
                         else if data[old(pos)] == FalseCode then Success(false)
                         else Failure(UnexpectedCode(data[old(pos)])))
    {
      if pos == data.Length {
        return Failure(EndOfStream);
      }
      var code := data[pos];
      pos := pos + 1;
      if code == TrueCode {
        r := Success(true);
      } else if code == FalseCode {
        r := Success(false);
      } else {
        r := Failure(UnexpectedCode(code));
      }
    }
  }

  /**
   `options.Security.DepthStep(ref reader)`: refuses to go deeper than the
   maximum object-graph depth, and otherwise enters one level.
   */
  method DepthStep(options: SecurityOptions, reader: MessagePackReader) returns (r: Result<(), DecodeError>)
    modifies reader
    ensures reader.pos == old(reader.pos)
    ensures old(reader.depth) >= options.maximumObjectGraphDepth ==>
              r == Failure(DepthExceeded) && reader.depth == old(reader.depth)
    ensures old(reader.depth) < options.maximumObjectGraphDepth ==>
              r == Success(()) && reader.depth == old(reader.depth) + 1
  {
    if reader.depth >= options.maximumObjectGraphDepth {
      return Failure(DepthExceeded);
    }
    reader.depth := reader.depth + 1;
    return Success(());
  }

  // ------------------------------------------------------- the Bit codec

  /** The bytes `Serialize` appends for `value`. */
  function EncodeBit(value: Bit): (bytes: seq<byte>)
    ensures |bytes| == 1 && bytes[0] != NilCode
    ensures bytes[0] == TrueCode <==> value.value
    ensures !value.value ==> bytes[0] == FalseCode
  {
    [if value.value then TrueCode else FalseCode]
  }

  /** What reading a `Bit` gives, and where it leaves the reader's position and depth. */
  datatype Decoded = Decoded(result: Result<Bit, DecodeError>, pos: int, depth: int)

  /**
   Reading a `Bit` at `pos` of `bytes` at nesting depth `depth`: nil yields
   the default `Bit` without touching the depth; otherwise the depth is
   stepped, a bool byte is read, and the depth is stepped back. When the byte
   is not a bool the read throws between the two steps, so the depth stays
   one level deeper.
   */
  function DecodeBit(bytes: seq<byte>, pos: nat, depth: int, maxDepth: int): (d: Decoded)
    requires pos <= |bytes|
    ensures d.result.Success? <==>
              && pos < |bytes|
              && (|| bytes[pos] == NilCode
                  || ((bytes[pos] == TrueCode || bytes[pos] == FalseCode) && depth < maxDepth))
    ensures d.result.Success? ==> d.pos == pos + 1 && d.depth == depth
    ensures d.result.Success? ==> (d.result.value.value <==> bytes[pos] == TrueCode)
  {
    if pos == |bytes| then Decoded(Failure(EndOfStream), pos, depth)
    else if bytes[pos] == NilCode then Decoded(Success(Bit.Default()), pos + 1, depth)
    else if depth >= maxDepth then Decoded(Failure(DepthExceeded), pos, depth)
    else if bytes[pos] == TrueCode then Decoded(Success(Bit(true)), pos + 1, depth)
    else if bytes[pos] == FalseCode then Decoded(Success(Bit(false)), pos + 1, depth)
    else Decoded(Failure(UnexpectedCode(bytes[pos])), pos + 1, depth + 1)
  }

  /** `BitFormatter.Serialize`: writes the `Bit` in its bool form. */
  method Serialize(writer: MessagePackWriter, value: Bit)
    modifies writer
    ensures writer.written == old(writer.written) + EncodeBit(value)
  {
    writer.Write(value.value);
  }

  /** `BitFormatter.Deserialize`. */
  method Deserialize(reader: MessagePackReader, options: SecurityOptions) returns (r: Result<Bit, DecodeError>)
    requires reader.Valid()
    modifies reader
    ensures reader.Valid()
    ensures Decoded(r, reader.pos, reader.depth)
            == DecodeBit(reader.data[..], old(reader.pos), old(reader.depth), options.maximumObjectGraphDepth)
  {
    var nil := reader.TryReadNil();
    if nil.Failure? {
      return Failure(nil.error);
    }
    if nil.value {
      return Success(Bit.Default());
    }
    var step := DepthStep(options, reader);
    if step.Failure? {
      return Failure(step.error);
    }
    var value := reader.ReadBoolean();
    if value.Failure? {
      return Failure(value.error);
    }
    reader.depth := reader.depth - 1;
    return Success(Bit(value.value));
  }

  /**
   `MessagePackSerializer.Serialize` then `Deserialize` of one `Bit`, with a
   fresh writer and a fresh reader at depth zero: the value comes back, from
   a single byte, unless the options forbid even one level of nesting.
   */
  method SerializeThenDeserialize(value: Bit, options: SecurityOptions) returns (decoded: Result<Bit, DecodeError>, size: nat)
    ensures size == 1
    ensures options.maximumObjectGraphDepth > 0 ==> decoded == Success(value)
    ensures options.maximumObjectGraphDepth <= 0 ==> decoded == Failure(DepthExceeded)
  {
    var writer := new MessagePackWriter();
    Serialize(writer, value);
    size := |writer.written|;
    var reader := new MessagePackReader(writer.written);
    decoded := Deserialize(reader, options);
  }

  // ------------------------------------------------- properties of the codec

  /**
   Round trip: the byte `Serialize` writes, wherever it stands in a stream,
   reads back as the same `Bit`, consuming that byte and leaving the depth
   where it was.
   */
  lemma DecodeEncodedBit(value: Bit, before: seq<byte>, after: seq<byte>, depth: int, maxDepth: int)
    requires depth < maxDepth
    ensures DecodeBit(before + EncodeBit(value) + after, |before|, depth, maxDepth)
            == Decoded(Success(value), |before| + 1, depth)
  {
    assert (before + EncodeBit(value) + after)[|before|] == EncodeBit(value)[0];
  }

  /** A nil byte reads as the default `Bit`, whose value is false, at any depth. */
  lemma DecodeNil(before: seq<byte>, after: seq<byte>, depth: int, maxDepth: int)
    ensures DecodeBit(before + [NilCode] + after, |before|, depth, maxDepth)
            == Decoded(Success(Bit.Default()), |before| + 1, depth)
    ensures !Bit.Default().value
  {
    assert (before + [NilCode] + after)[|before|] == NilCode;
  }

  /**
   A byte that is neither nil nor a bool is refused; below the depth limit
   the refusal comes from the read itself, after the depth was stepped.
   */
  lemma DecodeOtherCode(bytes: seq<byte>, pos: nat, depth: int, maxDepth: int)
    requires pos < |bytes|
    requires bytes[pos] != NilCode && bytes[pos] != TrueCode && bytes[pos] != FalseCode
    ensures DecodeBit(bytes, pos, depth, maxDepth).result.Failure?
    ensures depth < maxDepth ==>
              DecodeBit(bytes, pos, depth, maxDepth)
              == Decoded(Failure(UnexpectedCode(bytes[pos])), pos + 1, depth + 1)
  {
  }
}
