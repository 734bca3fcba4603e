/** The endpoint id made from sixteen random bytes where `randomUUID` is missing. */
module EndpointUuid {
  import opened Bytes
  import opened EndpointIds
  import opened HexText

  /** Version 4 in byte 6 and the RFC 4122 variant in byte 8; the rest stays random.
      `(b & 0x0f) | 0x40` and `(b & 0x3f) | 0x80`, written as arithmetic. */
  function Stamped(random: seq<byte>): (s: seq<byte>)
    requires |random| == 16
    ensures |s| == 16
  {
    random[6 := random[6] % 0x10 + 0x40][8 := random[8] % 0x40 + 0x80]
  }

  function Dashed(hex: string): (id: EndpointId)
    requires |hex| == 32
    ensures |id| == 36
  {
    hex[..8] + "-" + hex[8..12] + "-" + hex[12..16] + "-" + hex[16..20] + "-" + hex[20..]
  }

  method GenerateEndpointUuid(bytes: array<byte>) returns (id: EndpointId)
    requires bytes.Length == 16
    modifies bytes
    ensures bytes[..] == Stamped(old(bytes[..])) && id == Dashed(Hex(bytes[..]))
    ensures IsUuid(id) && AcceptedByBridge(id)
    ensures forall k :: 0 <= k < 16 ==> Carries(id, old(bytes[..]), k)
  {
    hide Hex, IsUuid, AcceptedByBridge, Carries, Dashed;
    ghost var random := bytes[..];
    bytes[6] := bytes[6] % 0x10 + 0x40;
    bytes[8] := bytes[8] % 0x40 + 0x80;
    assert bytes[..] == Stamped(random);
    var hex := HexOf(bytes[..]);
    GeneratedIsUuid(random);
    forall k | 0 <= k < 16 ensures Carries(Dashed(hex), random, k) { GeneratedText(random, k); }
    DashedIs(hex);
    ChecksAgree(Dashed(hex));
    id := hex[..8] + "-" + hex[8..12] + "-" + hex[12..16] + "-" + hex[16..20] + "-" + hex[20..];
  }

  lemma DigitIsHex(n: nat)
    requires n < 16
    ensures IsHex(Digit(n))
    ensures n == 4 ==> Digit(n) == '4'
    ensures 8 <= n < 12 ==> Digit(n) in "89ab"
  {
  }

  lemma {:induction false} HexIsHex(s: seq<byte>, i: nat)
    requires i < 2 * |s|
    ensures IsHex(Hex(s)[i])
  {
    hide Hex, Digit, IsHex;
    HexAt(s, i / 2);
    DigitIsHex(s[i / 2] / 16);
    DigitIsHex(s[i / 2] % 16);
    assert i == 2 * (i / 2) || i == 2 * (i / 2) + 1;
  }

  /** Whatever the random bytes, both validators accept the id. */
  lemma GeneratedIsUuid(random: seq<byte>)
    requires |random| == 16
    ensures IsUuid(Dashed(Hex(Stamped(random))))
  {
    var s := Stamped(random);
    var hex, id := Hex(s), Dashed(Hex(s));
    hide Hex, Digit, IsHex, Dashed;
    forall i | 0 <= i < 32 ensures IsHex(hex[i]) { HexIsHex(s, i); }
    HexAt(s, 6);
    HexAt(s, 8);
    DigitIsHex(s[6] / 16);
    DigitIsHex(s[8] / 16);
    DashedGroups(hex);
    assert HexRun(hex[..8], 8) && HexRun(hex[8..12], 4) && HexRun(hex[13..16], 3) && HexRun(hex[17..20], 3) && HexRun(hex[20..], 12);
  }

  lemma DashedGroups(hex: string)
    requires |hex| == 32
    ensures var id := Dashed(hex);
      && id[..8] == hex[..8] && id[8] == '-' && id[9..13] == hex[8..12] && id[13] == '-'
      && id[14] == hex[12] && id[15..18] == hex[13..16] && id[18] == '-'
      && id[14..18] == hex[12..16] && id[19..23] == hex[16..20]
      && id[19] == hex[16] && id[20..23] == hex[17..20] && id[23] == '-' && id[24..] == hex[20..]
  {
  }

  /** No randomness is lost besides the six stamped bits: ids are equal only for
      buffers that agree everywhere else. */
  lemma UuidInjective(a: seq<byte>, b: seq<byte>)
    requires |a| == 16 && |b| == 16
    ensures Dashed(Hex(Stamped(a))) == Dashed(Hex(Stamped(b))) <==> Stamped(a) == Stamped(b)
  {
    hide Hex, Stamped;
    var h, k := Hex(Stamped(a)), Hex(Stamped(b));
    if Dashed(h) == Dashed(k) {
      DashedParts(h);
      DashedParts(k);
      HexInjective(Stamped(a), Stamped(b));
    }
  }

  lemma DashedParts(hex: string)
    requires |hex| == 32
    ensures var id := Dashed(hex); hex == id[..8] + id[9..13] + id[14..18] + id[19..23] + id[24..]
  {
    hide Dashed;
    DashedGroups(hex);
    assert hex == hex[..8] + hex[8..12] + hex[12..16] + hex[16..20] + hex[20..];
  }

  lemma DashedIs(hex: string)
    requires |hex| == 32
    ensures Dashed(hex) == hex[..8] + "-" + hex[8..12] + "-" + hex[12..16] + "-" + hex[16..20] + "-" + hex[20..]
  {
  }

  /** Where the two digits of byte `k` are in the id. */
  function Place(k: nat): nat { 2 * k + if k < 4 then 0 else if k < 6 then 1 else if k < 8 then 2 else if k < 10 then 3 else 4 }

  /** The two digits of byte `k`, read back: the random byte, but for the version
      digit of byte 6 and the two variant bits of byte 8. */
  predicate Carries(id: EndpointId, random: seq<byte>, k: nat)
    requires |random| == 16 && k < 16
  {
    var p := Place(k);
    && p + 1 < |id| && IsDigit(id[p]) && IsDigit(id[p + 1])
    && Value(id[p]) == (if k == 6 then 4 else if k == 8 then 8 + random[8] / 16 % 4 else random[k] / 16)
    && Value(id[p + 1]) == random[k] % 16
  }

  /** Every random bit but those six is in the id. */
  lemma GeneratedText(random: seq<byte>, k: nat)
    requires |random| == 16 && k < 16
    ensures Carries(Dashed(Hex(Stamped(random))), random, k)
  {
    var s := Stamped(random);
    HexReads(s, k);
    DashedDigits(Hex(s), k);
    StampedBits(random);
    hide Hex, Dashed, Value, Stamped, IsDigit, Place;
    var hi, lo := Value(Hex(s)[2 * k]), Value(Hex(s)[2 * k + 1]);
    ValueBound(Hex(s)[2 * k]);
    ValueBound(Hex(s)[2 * k + 1]);
    TwoDigits(s[k], hi, lo);
  }

  lemma ValueBound(c: char)
    requires IsDigit(c)
    ensures Value(c) < 16
  {
  }

  lemma TwoDigits(b: nat, hi: nat, lo: nat)
    requires hi * 16 + lo == b && lo < 16
    ensures hi == b / 16 && lo == b % 16
  {
  }

  lemma DashedDigits(hex: string, k: nat)
    requires |hex| == 32 && k < 16
    ensures Dashed(hex)[Place(k)] == hex[2 * k] && Dashed(hex)[Place(k) + 1] == hex[2 * k + 1]
  {
  }

  lemma StampedBits(random: seq<byte>)
    requires |random| == 16
    ensures var s := Stamped(random);
      && s[6] / 16 == 4 && s[6] % 16 == random[6] % 16
      && s[8] / 16 == 8 + random[8] / 16 % 4 && s[8] % 16 == random[8] % 16
      && forall k :: 0 <= k < 16 && k != 6 && k != 8 ==> s[k] == random[k]
  {
  }
}
