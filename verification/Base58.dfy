/**
 Base58 text and the multibase form of secp256k1 public keys
 (fedify-sidecar/activitypods-integration/signing.service.js).
 */
module Base58 {
  import opened Prelude
  import opened Positional

  const BASE58_CHARS := "123456789" + "ABCDEFGHJKLMN" + "PQRSTUVWXYZ" + "abcdefghijk" + "mnopqrstuvwxyz"

  // Multicodec varint of secp256k1-pub.
  const SECP256K1_MULTICODEC: seq<byte> := [0xe7, 0x01]

  function Text(ds: seq<nat>): (text: string)
    requires Digits(58, ds)
    ensures |text| == |ds| && forall i :: 0 <= i < |ds| ==> text[i] == BASE58_CHARS[ds[i]]
  {
    seq(|ds|, i requires 0 <= i < |ds| => BASE58_CHARS[ds[i]])
  }

  /** The base58 text of a byte string, as a function. */
  function Encode(buf: seq<byte>): string {
    BytesAreDigits(buf);
    ConvertRoundTrip(256, 58, buf);
    Text(Convert(256, 58, buf))
  }

  lemma BytesAreDigits(buf: seq<byte>)
    ensures Digits(256, buf)
  {
  }

  /** The position of a character in the alphabet; 58 when it is not there. */
  function IndexFrom(c: char, k: nat): (i: nat)
    requires k <= 58
    ensures k <= i <= 58
    ensures i < 58 ==> BASE58_CHARS[i] == c
    ensures i == 58 ==> forall j :: k <= j < 58 ==> BASE58_CHARS[j] != c
    decreases 58 - k
  {
    if k == 58 then 58 else if BASE58_CHARS[k] == c then k else IndexFrom(c, k + 1)
  }

  function DigitValues(text: string): (ds: seq<nat>)
    ensures |ds| == |text| && forall i :: 0 <= i < |text| ==> ds[i] == IndexFrom(text[i], 0)
  {
    seq(|text|, i requires 0 <= i < |text| => IndexFrom(text[i], 0))
  }

  predicate InAlphabet(text: string) {
    forall i :: 0 <= i < |text| ==> IndexFrom(text[i], 0) < 58
  }

  /** Reference decoder: each leading '1' is a zero byte, the rest is a number. */
  function Decode(text: string): Option<seq<byte>> {
    if InAlphabet(text) then
      ConvertRoundTrip(58, 256, DigitValues(text));
      Some(Convert(58, 256, DigitValues(text)))
    else None
  }

  ghost function NumberText(num: nat): string {
    DigitsOfWrites(58, num);
    Text(DigitsOf(58, num))
  }

  ghost function Ones(n: nat): string {
    Text(Zeros(n))
  }

  /** The loop of the source: divide, prepend a character, then one '1' per leading zero byte. */
  method ToBase58(buf: seq<byte>) returns (result: string)
    ensures result == Encode(buf)
  {
    if |buf| == 0 {
      return "";
    }
    var num := Value(256, buf);
    result := "";
    while num > 0
      invariant NumberText(num) + result == NumberText(Value(256, buf))
    {
      PrependDigit(num, result);
      result := [BASE58_CHARS[num % 58]] + result;
      num := num / 58;
    }
    ghost var body := result;
    assert body == NumberText(Value(256, buf)) by {
      assert NumberText(0) == "";
    }
    var i := 0;
    while i < |buf| && buf[i] == 0
      invariant i <= LeadingZeros(buf)
      invariant result == Ones(i) + body
    {
      PrependOne(i, body);
      result := "1" + result;
      i := i + 1;
    }
    AssembleText(buf);
  }

  lemma LastDigit(num: nat)
    requires num > 0
    ensures num % 58 < 58
    ensures NumberText(num) == NumberText(num / 58) + [BASE58_CHARS[num % 58]]
  {
    DivStep(num, 58);
    DigitsOfWrites(58, num / 58);
    DigitsOfWrites(58, num);
  }

  lemma PrependDigit(num: nat, result: string)
    requires num > 0
    ensures num % 58 < 58
    ensures NumberText(num) + result == NumberText(num / 58) + ([BASE58_CHARS[num % 58]] + result)
  {
    LastDigit(num);
    var front, c := NumberText(num / 58), [BASE58_CHARS[num % 58]];
    assert (front + c) + result == front + (c + result);
  }

  lemma PrependOne(i: nat, body: string)
    ensures "1" + (Ones(i) + body) == Ones(i + 1) + body
  {
    assert BASE58_CHARS[0] == '1';
    assert Ones(i + 1) == "1" + Ones(i);
    assert "1" + (Ones(i) + body) == ("1" + Ones(i)) + body;
  }

  lemma AssembleText(buf: seq<byte>)
    ensures Ones(LeadingZeros(buf)) + NumberText(Value(256, buf)) == Encode(buf)
  {
    DigitsOfWrites(58, Value(256, buf));
    BytesAreDigits(buf);
    ConvertRoundTrip(256, 58, buf);
    var z, ds := Zeros(LeadingZeros(buf)), DigitsOf(58, Value(256, buf));
    assert Text(z + ds) == Text(z) + Text(ds);
  }

  /** The alphabet is strictly ascending, so no character stands for two digits. */
  lemma {:induction false} AlphabetAscends(i: nat, j: nat)
    requires i < j < 58
    ensures BASE58_CHARS[i] < BASE58_CHARS[j]
  {
    if i + 1 < j {
      AlphabetAscends(i, j - 1);
    }
    AlphabetStep(j - 1);
  }

  lemma AlphabetStep(i: nat)
    requires i < 57
    ensures BASE58_CHARS[i] < BASE58_CHARS[i + 1]
  {
    if i < 15 {
      AlphabetRun1(i);
    } else if i < 30 {
      AlphabetRun2(i);
    } else if i < 45 {
      AlphabetRun3(i);
    } else {
      AlphabetRun4(i);
    }
  }

  lemma AlphabetRun1(i: nat)
    requires 0 <= i < 15
    ensures BASE58_CHARS[i] < BASE58_CHARS[i + 1]
  {
    var c := BASE58_CHARS;
    assert c[0] < c[1] < c[2] < c[3] < c[4] < c[5] < c[6] < c[7] < c[8] < c[9] < c[10] < c[11] < c[12] < c[13] < c[14]
           < c[15];
  }

  lemma AlphabetRun2(i: nat)
    requires 15 <= i < 30
    ensures BASE58_CHARS[i] < BASE58_CHARS[i + 1]
  {
    var c := BASE58_CHARS;
    assert c[15] < c[16] < c[17] < c[18] < c[19] < c[20] < c[21] < c[22] < c[23] < c[24] < c[25]
           < c[26] < c[27] < c[28] < c[29] < c[30];
  }

  lemma AlphabetRun3(i: nat)
    requires 30 <= i < 45
    ensures BASE58_CHARS[i] < BASE58_CHARS[i + 1]
  {
    var c := BASE58_CHARS;
    assert c[30] < c[31] < c[32] < c[33] < c[34] < c[35] < c[36] < c[37] < c[38] < c[39] < c[40]
           < c[41] < c[42] < c[43] < c[44] < c[45];
  }

  lemma AlphabetRun4(i: nat)
    requires 45 <= i < 57
    ensures BASE58_CHARS[i] < BASE58_CHARS[i + 1]
  {
    var c := BASE58_CHARS;
    assert c[45] < c[46] < c[47] < c[48] < c[49] < c[50] < c[51] < c[52] < c[53] < c[54] < c[55] < c[56] < c[57];
  }

  lemma IndexOfAlphabet(d: nat)
    requires d < 58
    ensures IndexFrom(BASE58_CHARS[d], 0) == d
  {
    var i := IndexFrom(BASE58_CHARS[d], 0);
    if i < d {
      AlphabetAscends(i, d);
    } else if d < i < 58 {
      AlphabetAscends(d, i);
    }
  }

  lemma TextReadsBack(ds: seq<nat>)
    requires Digits(58, ds)
    ensures InAlphabet(Text(ds)) && DigitValues(Text(ds)) == ds
  {
    forall i | 0 <= i < |ds| ensures IndexFrom(Text(ds)[i], 0) == ds[i] {
      IndexOfAlphabet(ds[i]);
    }
  }

  /** Decoding gives back every byte string: empty, all-zero and zero-led ones included. */
  lemma RoundTrip(buf: seq<byte>)
    ensures Decode(Encode(buf)) == Some(buf)
  {
    BytesAreDigits(buf);
    ConvertRoundTrip(256, 58, buf);
    TextReadsBack(Convert(256, 58, buf));
  }

  /** And every alphabet text is the encoding of what it decodes to. */
  lemma DecodedReencodes(text: string, buf: seq<byte>)
    requires Decode(text) == Some(buf)
    ensures Encode(buf) == text
  {
    ConvertRoundTrip(58, 256, DigitValues(text));
    BytesAreDigits(buf);
    ConvertRoundTrip(256, 58, buf);
    assert Text(DigitValues(text)) == text;
  }

  lemma EncodeIsInjective(a: seq<byte>, b: seq<byte>)
    requires Encode(a) == Encode(b)
    ensures a == b
  {
    RoundTrip(a);
    RoundTrip(b);
  }

  function Secp256k1PubkeyToMultibase(key: seq<byte>): string {
    "z" + Encode(SECP256K1_MULTICODEC + key)
  }

  /** Reading a multibase key: the 'z' prefix, base58, then the two codec bytes. */
  function MultibaseToKey(text: string): Option<seq<byte>> {
    if text == "" || text[0] != 'z' then None
    else match Decode(text[1..])
      case Some(bytes) =>
        if |bytes| >= 2 && bytes[..2] == SECP256K1_MULTICODEC then Some(bytes[2..]) else None
      case None => None
  }

  lemma MultibaseReadsBack(key: seq<byte>)
    ensures MultibaseToKey(Secp256k1PubkeyToMultibase(key)) == Some(key)
  {
    var bytes := SECP256K1_MULTICODEC + key;
    RoundTrip(bytes);
    assert bytes[..2] == SECP256K1_MULTICODEC && bytes[2..] == key;
    assert Secp256k1PubkeyToMultibase(key)[1..] == Encode(bytes);
  }

  lemma MultibaseKeyWritesBack(key: seq<byte>, text: string)
    requires MultibaseToKey(text) == Some(key)
    ensures text == Secp256k1PubkeyToMultibase(key)
  {
    var bytes := Decode(text[1..]).value;
    DecodedReencodes(text[1..], bytes);
    assert bytes == SECP256K1_MULTICODEC + key by {
      assert bytes == bytes[..2] + bytes[2..];
    }
    assert text == "z" + text[1..];
  }

  /** The multibase form determines the key, and nothing else has a key. */
  lemma MultibaseRoundTrip(key: seq<byte>, text: string)
    ensures MultibaseToKey(text) == Some(key) <==> text == Secp256k1PubkeyToMultibase(key)
  {
    MultibaseReadsBack(key);
    if MultibaseToKey(text) == Some(key) {
      MultibaseKeyWritesBack(key, text);
    }
  }
}
