/** The buffer `Address::create` hashes (evm-common/src/address.rs): RLP of the pair (address, nonce),
    Appendix B of the Yellow Paper. */
module Rlp {
  import opened Types
  import opened GasRules
  import opened Numerals

  // ----- reference encoding, short forms ------------------------------------------------

  function EncodeBytes(b: seq<Byte>): seq<Byte>
    requires |b| <= 55
  {
    if |b| == 1 && b[0] < 0x80 then b else [0x80 + |b|] + b
  }

  function EncodeList(payload: seq<Byte>): seq<Byte>
    requires |payload| <= 55
  {
    [0xc0 + |payload|] + payload
  }

  predicate Encodable(address: seq<Byte>, nonce: nat) {
    |address| == 20 && nonce < Pow(256, 32)
  }

  /** The list of an address and a minimal nonce; its payload always fits the short form. */
  function EncodePair(address: seq<Byte>, nonce: nat): seq<Byte>
    requires Encodable(address, nonce)
  {
    MinimalLength(nonce, 32);
    EncodeList(EncodeBytes(address) + EncodeBytes(Minimal(nonce)))
  }

  // ----- decoder ------------------------------------------------------------------------

  /** One short byte string off the front, refusing encodings that are not canonical. */
  function TakeBytes(s: seq<Byte>): Option<(seq<Byte>, seq<Byte>)> {
    if s == [] then None
    else if s[0] < 0x80 then Some(([s[0]], s[1..]))
    else if s[0] <= 0xb7 && |s| > s[0] - 0x80 then
      var n := s[0] - 0x80;
      if n == 1 && s[1] < 0x80 then None else Some((s[1..1 + n], s[1 + n..]))
    else None
  }

  /** A list of exactly an address and a number without leading zeros. */
  function DecodePair(s: seq<Byte>): Option<(seq<Byte>, nat)> {
    if s == [] || !(0xc0 <= s[0] <= 0xf7) || |s| != 1 + (s[0] - 0xc0) then None
    else
      var first := TakeBytes(s[1..]);
      if first.None? || |first.value.0| != 20 then None
      else
        var second := TakeBytes(first.value.1);
        if second.None? || second.value.1 != [] || (second.value.0 != [] && second.value.0[0] == 0) then None
        else Some((first.value.0, BigEndian(second.value.0)))
  }

  lemma TakeInvertsEncode(b: seq<Byte>, rest: seq<Byte>)
    requires |b| <= 55
    ensures TakeBytes(EncodeBytes(b) + rest) == Some((b, rest))
  {
    var s := EncodeBytes(b) + rest;
    if |b| == 1 && b[0] < 0x80 {
      assert s[1..] == rest;
      assert [s[0]] == b;
    } else {
      assert s[1..1 + |b|] == b;
      assert s[1 + |b|..] == rest;
    }
  }

  lemma EncodedShape(b: seq<Byte>)
    requires |b| <= 55
    ensures EncodeBytes(b) == if |b| == 1 && b[0] < 0x80 then b else [0x80 + |b|] + b
  {
  }

  /** Skip the leading zero bytes. */
  method SkipZeros(bytes: seq<Byte>) returns (rest: seq<Byte>)
    ensures rest == StripZeros(bytes)
  {
    rest := bytes;
    while rest != [] && rest[0] == 0
      invariant StripZeros(rest) == StripZeros(bytes)
      decreases |rest|
    {
      rest := rest[1..];
    }
  }

  /** The buffer is the RLP list of the address and the minimal nonce, always in the short form, and a
      decoder recovers both parts. */
  method CreateBuffer(address: seq<Byte>, nonce: nat) returns (buffer: seq<Byte>)
    requires Encodable(address, nonce)
    ensures buffer == EncodePair(address, nonce) && |buffer| <= 55
    ensures DecodePair(buffer) == Some((address, nonce))
  {
    hide Pow, ToBytes, Minimal, StripZeros, DecodePair, EncodeBytes;
    StripIsMinimal(nonce, 32);
    MinimalLength(nonce, 32);
    var nonceBytes := SkipZeros(ToBytes(nonce, 32));
    buffer := [];
    var nonceLen := if nonceBytes == [] || (|nonceBytes| == 1 && nonceBytes[0] < 0x80) then 1 else 1 + |nonceBytes|;
    var payloadLen := 1 + |address| + nonceLen;
    buffer := buffer + [0xc0 + payloadLen];
    buffer := buffer + [0x80 + |address|];
    buffer := buffer + address;
    EncodedShape(address);
    EncodedShape(nonceBytes);
    ghost var head := [0xc0 + payloadLen] + EncodeBytes(address);
    assert buffer == head;
    if nonceBytes == [] {
      buffer := buffer + [0x80];
    } else if |nonceBytes| == 1 && nonceBytes[0] < 0x80 {
      buffer := buffer + [nonceBytes[0]];
    } else {
      buffer := buffer + [0x80 + |nonceBytes|];
      buffer := buffer + nonceBytes;
    }
    assert buffer == head + EncodeBytes(nonceBytes)
                  == [0xc0 + payloadLen] + (EncodeBytes(address) + EncodeBytes(nonceBytes));
    DecodeInvertsEncode(address, nonce);
  }

  lemma DecodeInvertsEncode(address: seq<Byte>, nonce: nat)
    requires Encodable(address, nonce)
    ensures DecodePair(EncodePair(address, nonce)) == Some((address, nonce))
  {
    hide Pow;
    MinimalLength(nonce, 32);
    var payload := EncodeBytes(address) + EncodeBytes(Minimal(nonce));
    var s := EncodeList(payload);
    assert s[1..] == payload;
    TakeInvertsEncode(address, EncodeBytes(Minimal(nonce)));
    TakeInvertsEncode(Minimal(nonce), []);
    assert EncodeBytes(Minimal(nonce)) + [] == EncodeBytes(Minimal(nonce));
    MinimalValue(nonce);
  }

  /** Distinct pairs give distinct buffers. */
  lemma BuffersAreDistinct(address: seq<Byte>, nonce: nat, address': seq<Byte>, nonce': nat)
    requires Encodable(address, nonce) && Encodable(address', nonce')
    requires EncodePair(address, nonce) == EncodePair(address', nonce')
    ensures address == address' && nonce == nonce'
  {
    MinimalLength(nonce, 32);
    MinimalLength(nonce', 32);
    DecodeInvertsEncode(address, nonce);
    DecodeInvertsEncode(address', nonce');
  }

  lemma EncodeInvertsTake(s: seq<Byte>)
    requires TakeBytes(s).Some?
    ensures var (b, rest) := TakeBytes(s).value; |b| <= 55 && s == EncodeBytes(b) + rest
  {
  }

  /** The decoder accepts nothing but these buffers: they are the canonical encodings. */
  lemma DecodeIsCanonical(s: seq<Byte>)
    requires DecodePair(s).Some? && DecodePair(s).value.1 < Pow(256, 32)
    ensures s == EncodePair(DecodePair(s).value.0, DecodePair(s).value.1)
  {
    hide Pow;
    var (address, tail) := TakeBytes(s[1..]).value;
    var (nonceBytes, _) := TakeBytes(tail).value;
    EncodeInvertsTake(s[1..]);
    EncodeInvertsTake(tail);
    MinimalIsUnique(nonceBytes);
    assert s == [s[0]] + s[1..];
  }
}
