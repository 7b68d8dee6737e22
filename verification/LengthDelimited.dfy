/** The length-delimited encoding that hands attestation state from one boot
    stage to the next: eight little-endian length bytes, then the message. */
module LengthDelimited {
  import opened Prelude

  /** A protobuf message codec. What prost promises is stated by `RoundTrips`. */
  datatype Codec<!T> = Codec(encode: T -> Bytes, decode: Bytes -> Option<T>)

  ghost predicate RoundTrips<T(!new)>(codec: Codec<T>) {
    forall m :: codec.decode(codec.encode(m)) == Some(m)
  }

  const PREFIX_SIZE: nat := 8

  function Pow256(width: nat): (r: nat)
    ensures r > 0
  {
    if width == 0 then 1 else 256 * Pow256(width - 1)
  }

  /** `to_le_bytes` of an unsigned integer of `width` bytes; excess high bits are lost. */
  function ToLeBytes(n: nat, width: nat): (r: Bytes)
    ensures |r| == width
  {
    if width == 0 then [] else [n % 256] + ToLeBytes(n / 256, width - 1)
  }

  /** `from_le_bytes`. */
  function FromLeBytes(b: Bytes): (n: nat)
    ensures n < Pow256(|b|)
  {
    if b == [] then 0 else b[0] + 256 * FromLeBytes(b[1..])
  }

  lemma {:induction false} LeBytesRoundTrip(n: nat, width: nat)
    ensures n < Pow256(width) ==> FromLeBytes(ToLeBytes(n, width)) == n
    ensures FromLeBytes(ToLeBytes(n, width)) < Pow256(width)
  {
    if width > 0 {
      LeBytesRoundTrip(n / 256, width - 1);
      assert ToLeBytes(n, width)[1..] == ToLeBytes(n / 256, width - 1);
    }
  }

  lemma DivideDigits(low: byte, high: nat)
    ensures (low + 256 * high) % 256 == low && (low + 256 * high) / 256 == high
  {
  }

  /** Decoding is also injective on prefixes: the eight bytes are determined by the length. */
  lemma {:induction false} LeBytesInverse(b: Bytes)
    ensures ToLeBytes(FromLeBytes(b), |b|) == b
  {
    if b != [] {
      LeBytesInverse(b[1..]);
      DivideDigits(b[0], FromLeBytes(b[1..]));
      FirstAndRest(b);
    }
  }

  lemma PrefixHoldsUsize()
    ensures Pow256(PREFIX_SIZE) == USIZE_VALUES
  {
    assert Pow256(2) == 0x1_0000;
    assert Pow256(4) == 0x1_0000_0000;
    assert Pow256(6) == 0x1_0000_0000_0000;
    assert Pow256(8) == 0x1_0000_0000_0000_0000;
  }

  /** What `Encode` leaves in the vector. Reserving more than `isize::MAX` bytes panics. */
  function Encoding<T>(codec: Codec<T>, message: T): (r: Outcome<Bytes>) {
    var body := codec.encode(message);
    if |body| + PREFIX_SIZE > ISIZE_MAX then Panic
    else Ok(ToLeBytes(|body|, PREFIX_SIZE) + body)
  }

  method Encode<T>(codec: Codec<T>, message: T) returns (r: Outcome<Bytes>)
    ensures r == Encoding(codec, message)
  {
    var body := codec.encode(message);
    var len := |body|;
    if len + PREFIX_SIZE > ISIZE_MAX {
      return Panic;
    }
    var result: Bytes := [];
    result := result + ToLeBytes(len, PREFIX_SIZE);
    result := result + body;
    assert result == ToLeBytes(len, PREFIX_SIZE) + body;
    r := Ok(result);
  }

  /** `try_decode_length_delimited_proto`. A buffer shorter than the prefix
      makes `split_at` panic instead of returning an error. */
  function Decode<T>(codec: Codec<T>, buffer: Bytes): (r: Outcome<T>) {
    if |buffer| < PREFIX_SIZE then Panic
    else
      var rest := buffer[PREFIX_SIZE..];
      var len := FromLeBytes(buffer[..PREFIX_SIZE]);
      if len > |rest| then Err
      else OkOr(codec.decode(rest[..len]))
  }

  /** Encoding then decoding gives the message back, whatever follows it in the buffer. */
  lemma DecodeEncoded<T(!new)>(codec: Codec<T>, message: T, trailing: Bytes)
    requires RoundTrips(codec)
    requires Encoding(codec, message).Ok?
    ensures Decode(codec, Encoding(codec, message).value + trailing) == Ok(message)
  {
    var body := codec.encode(message);
    var prefix := ToLeBytes(|body|, PREFIX_SIZE);
    hide ToLeBytes, FromLeBytes, Pow256;
    PrefixHoldsUsize();
    LeBytesRoundTrip(|body|, PREFIX_SIZE);
    ConcatAssociates(prefix, body, trailing);
    SplitConcat(prefix, body + trailing);
    SplitConcat(body, trailing);
  }

  /** No truncation of an encoding decodes: inside the prefix it panics, after it it is an error. */
  lemma TruncatedIsRejected<T>(codec: Codec<T>, message: T, size: nat)
    requires Encoding(codec, message).Ok? && size < |Encoding(codec, message).value|
    ensures Decode(codec, Encoding(codec, message).value[..size])
         == if size < PREFIX_SIZE then Panic else Err
  {
    hide ToLeBytes, FromLeBytes, Pow256;
    var full := Encoding(codec, message).value;
    if size >= PREFIX_SIZE {
      var body := codec.encode(message);
      PrefixHoldsUsize();
      LeBytesRoundTrip(|body|, PREFIX_SIZE);
      assert full[..size][..PREFIX_SIZE] == ToLeBytes(|body|, PREFIX_SIZE);
    }
  }

  /** A buffer decodes exactly when it is a complete frame around a decodable message. */
  lemma DecodesExactlyFrames<T>(codec: Codec<T>, buffer: Bytes, message: T)
    ensures Decode(codec, buffer) == Ok(message) <==>
            exists body: Bytes, trailing: Bytes ::
              buffer == ToLeBytes(|body|, PREFIX_SIZE) + body + trailing
              && |body| < USIZE_VALUES && codec.decode(body) == Some(message)
  {
    hide ToLeBytes, FromLeBytes, Pow256;
    PrefixHoldsUsize();
    if Decode(codec, buffer) == Ok(message) {
      var len := FromLeBytes(buffer[..PREFIX_SIZE]);
      var body, trailing := buffer[PREFIX_SIZE..][..len], buffer[PREFIX_SIZE..][len..];
      LeBytesInverse(buffer[..PREFIX_SIZE]);
      assert buffer == ToLeBytes(|body|, PREFIX_SIZE) + body + trailing;
    }
    forall body: Bytes, trailing: Bytes |
      buffer == ToLeBytes(|body|, PREFIX_SIZE) + body + trailing
      && |body| < USIZE_VALUES && codec.decode(body) == Some(message)
      ensures Decode(codec, buffer) == Ok(message)
    {
      LeBytesRoundTrip(|body|, PREFIX_SIZE);
      ConcatAssociates(ToLeBytes(|body|, PREFIX_SIZE), body, trailing);
      SplitConcat(ToLeBytes(|body|, PREFIX_SIZE), body + trailing);
      SplitConcat(body, trailing);
    }
  }
}
