/** Endpoint identifiers: lower-case RFC 4122 UUIDs of versions 1 to 5, checked by
    a byte walk in the bridge and by a pattern in the front end. */
module EndpointIds {
  type EndpointId = string

  const LOCAL: EndpointId := "local"

  predicate IsHex(c: char) { '0' <= c <= '9' || 'a' <= c <= 'f' }

  predicate IsDash(i: int) { i == 8 || i == 13 || i == 18 || i == 23 }

  /** The bridge's check, byte by byte; the local endpoint passes as well. */
  predicate AcceptedByBridge(id: EndpointId) {
    || id == LOCAL
    || (&& |id| == 36
        && id[8] == '-' && id[13] == '-' && id[18] == '-' && id[23] == '-'
        && (forall i :: 0 <= i < |id| ==> IsDash(i) || IsHex(id[i]))
        && '1' <= id[14] <= '5'
        && (id[19] == '8' || id[19] == '9' || id[19] == 'a' || id[19] == 'b'))
  }

  predicate HexRun(s: string, n: nat) {
    |s| == n && forall i :: 0 <= i < n ==> IsHex(s[i])
  }

  /** The front end's pattern: groups of 8, 4, 4, 4 and 12 digits. */
  predicate IsUuid(id: EndpointId) {
    && |id| == 36
    && HexRun(id[..8], 8) && id[8] == '-'
    && HexRun(id[9..13], 4) && id[13] == '-'
    && '1' <= id[14] <= '5' && HexRun(id[15..18], 3) && id[18] == '-'
    && id[19] in "89ab" && HexRun(id[20..23], 3) && id[23] == '-'
    && HexRun(id[24..], 12)
  }

  lemma HexRunAt(id: EndpointId, lo: nat, hi: nat, i: nat)
    requires lo <= i < hi <= |id| && HexRun(id[lo..hi], hi - lo)
    ensures IsHex(id[i])
  {
    assert id[lo..hi][i - lo] == id[i];
  }

  /** Both sides accept the same remote identifiers. */
  lemma ChecksAgree(id: EndpointId)
    ensures AcceptedByBridge(id) <==> id == LOCAL || IsUuid(id)
  {
    if IsUuid(id) {
      assert id[24..] == id[24..36];
      assert id[..8] == id[0..8];
      forall i | 0 <= i < 36 ensures IsDash(i) || IsHex(id[i]) {
        if i < 8 { HexRunAt(id, 0, 8, i); }
        else if 8 < i < 13 { HexRunAt(id, 9, 13, i); }
        else if 14 < i < 18 { HexRunAt(id, 15, 18, i); }
        else if 19 < i < 23 { HexRunAt(id, 20, 23, i); }
        else if 23 < i { HexRunAt(id, 24, 36, i); }
      }
    }
  }

  /** An identifier, digit by digit. */
  predicate InDigits(id: EndpointId) {
    && |id| == 36 && id[14] in "12345" && id[19] in "89ab"
    && forall i :: 0 <= i < 36 ==> if i == 8 || i == 13 || i == 18 || i == 23 then id[i] == '-' else id[i] in "0123456789abcdef"
  }

  /** The remote identifiers that are accepted. */
  lemma UuidIff(id: EndpointId)
    ensures IsUuid(id) <==> InDigits(id)
  {
    ChecksAgree(id);
    LocalIsShort();
    if |id| == 36 {
      forall i | 0 <= i < 36 ensures IsHex(id[i]) <==> id[i] in "0123456789abcdef" { HexIff(id[i]); }
      VersionIff(id[14]);
      VariantIff(id[19]);
    }
    hide IsHex, HexRun;
  }

  lemma HexIff(c: char)
    ensures IsHex(c) <==> c in "0123456789abcdef"
  {
    if IsHex(c) {
      var i := if c <= '9' then c as nat - '0' as nat else c as nat - 'a' as nat + 10;
      assert "0123456789abcdef"[i] == c;
    }
  }

  lemma VersionIff(c: char)
    ensures '1' <= c <= '5' <==> c in "12345"
  {
    if '1' <= c <= '5' { assert "12345"[c as nat - '1' as nat] == c; }
  }

  lemma VariantIff(c: char)
    ensures c == '8' || c == '9' || c == 'a' || c == 'b' <==> c in "89ab"
  {
    assert "89ab"[0] == '8' && "89ab"[1] == '9' && "89ab"[2] == 'a' && "89ab"[3] == 'b';
  }

  lemma LocalIsShort()
    ensures |LOCAL| != 36
  {
  }
}
