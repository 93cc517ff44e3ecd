/**
 DER-encoded ECDSA signatures to the 64-byte compact form with low s
 (fedify-sidecar/activitypods-integration/signing.service.js).
 */
module DerSignature {
  import opened Prelude
  import opened Positional

  const SECP256K1_N: nat := 0xFFFFFFFFFFFFFFFFFFFFFFFFFFFFFFFEBAAEDCE6AF48A03BBFD25E8CD0364141

  // 2^255: the first integer whose DER form needs a sign byte beyond 32 bytes.
  const SIGN_BYTE_LIMIT: nat := 0x8000000000000000000000000000000000000000000000000000000000000000

  datatype DerError =
    | ExpectedIntegerR
    | ExpectedIntegerS
    | CopyOffsetOutOfRange

  function ByteAt(buf: seq<byte>, i: nat): Option<byte> {
    if i < |buf| then Some(buf[i]) else None
  }

  /** `Buffer.slice(start, start + len)`, clamped to the buffer; an undefined length gives no bytes. */
  function Slice(buf: seq<byte>, start: nat, len: Option<byte>): seq<byte> {
    if len.None? || start >= |buf| then []
    else if start + len.value <= |buf| then buf[start..start + len.value]
    else buf[start..]
  }

  function ZeroBytes(n: nat): (zs: seq<byte>)
    ensures zs == Zeros(n)
  {
    seq(n, _ => 0)
  }

  /** Copy into a zeroed 32-byte buffer, right-aligned; the source's copy throws when that starts below 0. */
  function Pad32(bytes: seq<byte>): Result<seq<byte>, DerError> {
    if |bytes| > 32 then Err(CopyOffsetOutOfRange) else Ok(ZeroBytes(32 - |bytes|) + bytes)
  }

  function AsBytes(ds: seq<nat>): (bytes: seq<byte>)
    requires Digits(256, ds)
    ensures bytes == ds
  {
    ds
  }

  function NumberBytes(n: nat): (bytes: seq<byte>)
    ensures bytes == DigitsOf(256, n)
  {
    DigitsOfWrites(256, n);
    AsBytes(DigitsOf(256, n))
  }

  /** `lowS.toString(16).padStart(64, "0")` read as hex; a minus sign ends the readable part. */
  function HexOf(n: int): seq<byte> {
    if n >= 0 then
      var bytes := NumberBytes(n);
      ZeroBytes(if |bytes| <= 32 then 32 - |bytes| else 0) + bytes
    else
      var digits := |DigitsOf(16, -n)|;
      ZeroBytes(if digits <= 63 then (63 - digits) / 2 else 0)
  }

  function FinalS(s: seq<byte>): seq<byte> {
    var sInt := Value(256, s);
    if sInt > SECP256K1_N / 2 then HexOf(SECP256K1_N - sInt) else s
  }

  /** The whole conversion as a function of the DER bytes. */
  function Compact(der: seq<byte>): Result<seq<byte>, DerError> {
    if ByteAt(der, 2) != Some(0x02) then Err(ExpectedIntegerR)
    else if ByteAt(der, 3).None? then Err(ExpectedIntegerS)
    else
      var rLen: nat := der[3];
      if ByteAt(der, 4 + rLen) != Some(0x02) then Err(ExpectedIntegerS)
      else
        var rPadded := Pad32(Slice(der, 4, Some(der[3])));
        var sPadded := Pad32(Slice(der, 6 + rLen, ByteAt(der, 5 + rLen)));
        if rPadded.Err? || sPadded.Err? then Err(CopyOffsetOutOfRange)
        else Ok(rPadded.value + FinalS(sPadded.value))
  }

  /** The source's running offset over the buffer. */
  method DerToCompact(der: seq<byte>) returns (out: Result<seq<byte>, DerError>)
    ensures out == Compact(der)
  {
    var offset: nat := 2;
    if ByteAt(der, offset) != Some(0x02) {
      return Err(ExpectedIntegerR);
    }
    offset := offset + 1;
    var rLen := ByteAt(der, offset);
    offset := offset + 1;
    var rBytes := Slice(der, offset, rLen);
    if rLen.None? {
      // The offset becomes NaN, so the next read is undefined.
      return Err(ExpectedIntegerS);
    }
    offset := offset + rLen.value;
    if ByteAt(der, offset) != Some(0x02) {
      return Err(ExpectedIntegerS);
    }
    offset := offset + 1;
    var sLen := ByteAt(der, offset);
    offset := offset + 1;
    var sBytes := Slice(der, offset, sLen);

    var r := Pad32(rBytes);
    if r.Err? {
      return Err(r.error);
    }
    var s := Pad32(sBytes);
    if s.Err? {
      return Err(s.error);
    }
    var sInt := Value(256, s.value);
    var finalS := s.value;
    if sInt > SECP256K1_N / 2 {
      finalS := HexOf(SECP256K1_N - sInt);
    }
    return Ok(r.value + finalS);
  }

  // ----- the encoding the conversion reads -----

  /** A positive INTEGER in DER: minimal big-endian bytes, with 0x00 in front when the top bit is set. */
  function IntegerContents(n: nat): seq<byte>
    requires n > 0
  {
    DigitsOfWrites(256, n);
    var bytes := NumberBytes(n);
    if bytes[0] >= 128 then [0] + bytes else bytes
  }

  ghost predicate Scalar(n: nat) {
    0 < n < SECP256K1_N
  }

  /** A DER SEQUENCE of two INTEGERs with the given contents. */
  function TwoIntegers(R: seq<byte>, S: seq<byte>): seq<byte>
    requires |R| <= 33 && |S| <= 33
  {
    [0x30, 4 + |R| + |S|, 0x02, |R|] + R + [0x02, |S|] + S
  }

  /** ECDSA-Sig-Value of section 2.2.3 of RFC 3279. */
  function EncodeSignature(r: nat, s: nat): seq<byte>
    requires Scalar(r) && Scalar(s)
  {
    ScalarLength(r);
    ScalarLength(s);
    TwoIntegers(IntegerContents(r), IntegerContents(s))
  }

  /** The canonical choice between s and n - s. */
  function LowS(s: nat): nat
    requires s <= SECP256K1_N
  {
    if s > SECP256K1_N / 2 then SECP256K1_N - s else s
  }

  lemma PowersOf256()
    ensures Pow(256, 31) * 128 == SIGN_BYTE_LIMIT
    ensures Pow(256, 32) == 2 * SIGN_BYTE_LIMIT
    ensures SECP256K1_N < Pow(256, 32)
    ensures SECP256K1_N / 2 < SIGN_BYTE_LIMIT
  {
    assert Pow(256, 8) == 0x1_0000_0000_0000_0000;
    PowAdds(256, 8, 8);
    PowAdds(256, 16, 16);
    assert Pow(256, 32) == 256 * Pow(256, 31);
  }

  lemma {:induction false} PowAdds(base: nat, a: nat, b: nat)
    ensures Pow(base, a + b) == Pow(base, a) * Pow(base, b)
  {
    if a > 0 {
      PowAdds(base, a - 1, b);
      MulAssociates(base, Pow(base, a - 1), Pow(base, b));
    }
  }

  lemma MulAssociates(x: nat, y: nat, z: nat)
    ensures x * (y * z) == (x * y) * z
  {
  }

  lemma {:induction false} PowMonotone(base: nat, a: nat, b: nat)
    requires base >= 2 && a <= b
    ensures 1 <= Pow(base, a) <= Pow(base, b)
  {
    if a < b {
      PowMonotone(base, a, b - 1);
    } else if a > 0 {
      PowMonotone(base, a - 1, b - 1);
    }
  }

  /** A number below 256^32 has at most 32 digits, and a top bit in 32 digits from 2^255 on. */
  lemma DigitCount(n: nat)
    requires 0 < n < Pow(256, 32)
    ensures var ds := DigitsOf(256, n);
            && 1 <= |ds| <= 32
            && (n >= SIGN_BYTE_LIMIT <==> |ds| == 32 && ds[0] >= 128)
  {
    DigitsOfWrites(256, n);
    PowersOf256();
    var ds := DigitsOf(256, n);
    ValueBounds(256, ds);
    if |ds| > 32 {
      PowMonotone(256, 32, |ds| - 1);
      MulMono(1, ds[0], Pow(256, |ds| - 1));
    }
    if |ds| < 32 {
      PowMonotone(256, |ds|, 31);
    } else if ds[0] >= 128 {
      MulMono(128, ds[0], Pow(256, 31));
    } else {
      MulMono(ds[0] + 1, 128, Pow(256, 31));
    }
  }

  /** A scalar's DER integer takes at most 33 bytes, and 33 exactly from 2^255 on. */
  lemma ScalarLength(n: nat)
    requires Scalar(n)
    ensures 1 <= |IntegerContents(n)| <= 33
    ensures |IntegerContents(n)| == 33 <==> n >= SIGN_BYTE_LIMIT
    ensures Value(256, IntegerContents(n)) == n
  {
    PowersOf256();
    DigitCount(n);
    DigitsOfWrites(256, n);
    LeadingZerosAreFree(256, 1, DigitsOf(256, n));
    assert Zeros(1) + DigitsOf(256, n) == [0] + DigitsOf(256, n);
  }

  lemma PaddingKeepsValue(bytes: seq<byte>)
    requires |bytes| <= 32
    ensures |Pad32(bytes).value| == 32 && Value(256, Pad32(bytes).value) == Value(256, bytes)
  {
    LeadingZerosAreFree(256, 32 - |bytes|, bytes);
    assert Zeros(32 - |bytes|) + bytes == ZeroBytes(32 - |bytes|) + bytes;
  }

  /** A scalar below the group order fits 32 bytes in hex. */
  lemma HexOfScalar(low: nat)
    requires low < SECP256K1_N
    ensures |HexOf(low)| == 32 && Value(256, HexOf(low)) == low
  {
    hide Pow, Value, DigitsOf;
    DigitsOfWrites(256, low);
    ScalarDigits(low);
    PaddingKeepsValue(NumberBytes(low));
  }

  lemma ScalarDigits(low: nat)
    requires low < SECP256K1_N
    ensures |DigitsOf(256, low)| <= 32
  {
    if low == 0 {
      assert DigitsOf(256, 0) == [];
    } else {
      hide Pow, DigitsOf;
      PowersOf256();
      DigitCount(low);
    }
  }

  lemma FinalSIsLow(s: seq<byte>)
    requires |s| == 32 && Value(256, s) <= SECP256K1_N
    ensures |FinalS(s)| == 32 && Value(256, FinalS(s)) == LowS(Value(256, s))
  {
    hide Value, HexOf;
    if Value(256, s) > SECP256K1_N / 2 {
      HexOfScalar(SECP256K1_N - Value(256, s));
    }
  }

  /** What the offsets of the source read from a two-integer sequence. */
  lemma LayoutReads(R: seq<byte>, S: seq<byte>)
    requires |R| <= 33 && |S| <= 33
    ensures Compact(TwoIntegers(R, S))
         == if |R| <= 32 && |S| <= 32 then Ok(Pad32(R).value + FinalS(Pad32(S).value))
            else Err(CopyOffsetOutOfRange)
  {
    var der := TwoIntegers(R, S);
    assert der[2] == 0x02 && der[3] == |R|;
    assert der[4..4 + |R|] == R;
    assert der[4 + |R|] == 0x02 && der[5 + |R|] == |S|;
    assert der[6 + |R|..6 + |R| + |S|] == S;
    assert der[6 + |R|..] == S;
    assert Slice(der, 4, Some(der[3])) == R;
    assert Slice(der, 6 + |R|, ByteAt(der, 5 + |R|)) == S;
  }

  lemma CompactOfEncoding(r: nat, s: nat)
    requires Scalar(r) && Scalar(s)
    ensures var R, S := IntegerContents(r), IntegerContents(s);
            if r < SIGN_BYTE_LIMIT && s < SIGN_BYTE_LIMIT
            then |R| <= 32 && |S| <= 32 && Compact(EncodeSignature(r, s)) == Ok(Pad32(R).value + FinalS(Pad32(S).value))
            else Compact(EncodeSignature(r, s)) == Err(CopyOffsetOutOfRange)
  {
    ScalarLength(r);
    ScalarLength(s);
    LayoutReads(IntegerContents(r), IntegerContents(s));
  }

  /**
   The conversion succeeds exactly when neither integer needs a sign byte beyond 32 bytes,
   and then carries the same r and the low one of s and n - s.
   */
  lemma CompactOfSignature(r: nat, s: nat)
    requires Scalar(r) && Scalar(s)
    ensures Compact(EncodeSignature(r, s)).Ok? <==> r < SIGN_BYTE_LIMIT && s < SIGN_BYTE_LIMIT
    ensures Compact(EncodeSignature(r, s)).Err? ==>
              Compact(EncodeSignature(r, s)) == Err(CopyOffsetOutOfRange)
    ensures Compact(EncodeSignature(r, s)).Ok? ==>
              var out := Compact(EncodeSignature(r, s)).value;
              && |out| == 64
              && Value(256, out[..32]) == r
              && Value(256, out[32..]) == LowS(s) <= SECP256K1_N / 2
  {
    CompactOfEncoding(r, s);
    if r < SIGN_BYTE_LIMIT && s < SIGN_BYTE_LIMIT {
      ScalarLength(r);
      ScalarLength(s);
      PaddingKeepsValue(IntegerContents(r));
      PaddingKeepsValue(IntegerContents(s));
      var head, tail := Pad32(IntegerContents(r)).value, Pad32(IntegerContents(s)).value;
      FinalSIsLow(tail);
      assert (head + FinalS(tail))[..32] == head && (head + FinalS(tail))[32..] == FinalS(tail);
    }
  }

  /** A well-formed signature on which the conversion throws: r = 2^255, s = 1. */
  lemma SignByteThrows()
    ensures Scalar(SIGN_BYTE_LIMIT) && Scalar(1)
    ensures Compact(EncodeSignature(SIGN_BYTE_LIMIT, 1)) == Err(CopyOffsetOutOfRange)
  {
    CompactOfSignature(SIGN_BYTE_LIMIT, 1);
  }

  /** Two 32-byte strings of one value are one string. */
  lemma {:induction false} EqualValues(a: seq<byte>, b: seq<byte>)
    requires |a| == |b| && Value(256, a) == Value(256, b)
    ensures a == b
  {
    if a != [] {
      var n := |a| - 1;
      DivMod(Value(256, a[..n]), 256, a[n]);
      DivMod(Value(256, b[..n]), 256, b[n]);
      EqualValues(a[..n], b[..n]);
      assert a == a[..n] + [a[n]] && b == b[..n] + [b[n]];
    }
  }

  /** Signatures whose s have one low form share one compact form. */
  lemma SameLowS(r: nat, s: nat, t: nat)
    requires Scalar(r) && Scalar(s) && Scalar(t) && LowS(s) == LowS(t)
    requires r < SIGN_BYTE_LIMIT && s < SIGN_BYTE_LIMIT && t < SIGN_BYTE_LIMIT
    ensures Compact(EncodeSignature(r, s)) == Compact(EncodeSignature(r, t))
  {
    CompactOfSignature(r, s);
    CompactOfSignature(r, t);
    var a, b := Compact(EncodeSignature(r, s)).value, Compact(EncodeSignature(r, t)).value;
    EqualValues(a[..32], b[..32]);
    EqualValues(a[32..], b[32..]);
    assert a == a[..32] + a[32..] && b == b[..32] + b[32..];
  }

  /** Normalising again changes nothing, and n - s has the compact form of s whenever it converts. */
  lemma NormalisationIsIdempotent(r: nat, s: nat)
    requires Scalar(r) && Scalar(s) && r < SIGN_BYTE_LIMIT && s < SIGN_BYTE_LIMIT
    ensures Scalar(LowS(s)) && LowS(SECP256K1_N - s) == LowS(s) == LowS(LowS(s))
    ensures Compact(EncodeSignature(r, LowS(s))) == Compact(EncodeSignature(r, s))
    ensures Scalar(SECP256K1_N - s)
    ensures SECP256K1_N - s < SIGN_BYTE_LIMIT ==>
              Compact(EncodeSignature(r, SECP256K1_N - s)) == Compact(EncodeSignature(r, s))
  {
    PowersOf256();
    SameLowS(r, LowS(s), s);
    if SECP256K1_N - s < SIGN_BYTE_LIMIT {
      SameLowS(r, SECP256K1_N - s, s);
    }
  }
}
