/**
 * The entry fingerprint of utils/migrate.py: `compute_hash(name, room,
 * building, salt)`. The three identity fields are trimmed, a blank room
 * becomes "N/A" and a blank building "Unassigned", they are joined with
 * "::", a non-zero salt appends "::salt<k>", and the fingerprint is the
 * first 12 characters of the SHA-256 hex digest of that key.
 *
 * SHA-256 (FIPS 180-4) itself is not modelled: the digest is a parameter,
 * any function from the key to 64 lowercase hexadecimal characters.
 */
module Fingerprint {
  import opened PyText

  predicate IsHexChar(c: char) {
    ('0' <= c <= '9') || ('a' <= c <= 'f')
  }

  /** What `hashlib.sha256(...).hexdigest()` returns: 64 lowercase hex characters. */
  type HexDigest = s: string | |s| == 64 && forall i :: 0 <= i < |s| ==> IsHexChar(s[i])
    witness seq(64, i => '0')

  /** SHA-256 of the UTF-8 encoding of a key, as a hex digest. */
  type Digest = string -> HexDigest

  /** How many digest characters a fingerprint keeps (`[:12]`). */
  const FingerprintLength: nat := 12

  const NoRoom := "N/A"
  const NoBuilding := "Unassigned"

  /** `(room or "").strip() or "N/A"`: never empty, and already stripped. */
  function RoomValue(room: Option<string>): (v: string)
    ensures v != [] && Strip(v) == v
  {
    var r := Strip(OrEmpty(room));
    if r == [] then StripTrimmed(NoRoom); NoRoom else StripTrimmed(r); r
  }

  /** `(building or "").strip() or "Unassigned"`: never empty, and already stripped. */
  function BuildingValue(building: Option<string>): (v: string)
    ensures v != [] && Strip(v) == v
  {
    var b := Strip(OrEmpty(building));
    if b == [] then StripTrimmed(NoBuilding); NoBuilding else StripTrimmed(b); b
  }

  /**
   * The unsalted key `name::room::building` over the normalised fields: it
   * starts with the stripped name and "::", and ends with "::" and the
   * building part.
   */
  function BaseKey(name: string, room: Option<string>, building: Option<string>): (k: string)
    ensures Strip(name) + "::" <= k
    ensures var tail := "::" + BuildingValue(building); |tail| <= |k| && k[|k| - |tail|..] == tail
  {
    var k := Strip(name) + "::" + RoomValue(room) + "::" + BuildingValue(building);
    assert k == (Strip(name) + "::" + RoomValue(room)) + ("::" + BuildingValue(building));
    k
  }

  /** The key that is hashed: the base key, with `::salt<k>` when the salt is non-zero. */
  function Key(name: string, room: Option<string>, building: Option<string>, salt: int): (k: string)
    ensures BaseKey(name, room, building) <= k
    ensures k == BaseKey(name, room, building) <==> salt == 0
  {
    var base := BaseKey(name, room, building);
    if salt != 0 then base + "::salt" + IntToString(salt) else base
  }

  /**
   * `compute_hash(name, room, building, salt)`: a fingerprint is 12
   * lowercase hex characters, the first ones of the key's hex digest.
   */
  function ComputeHash(digest: Digest, name: string, room: Option<string>, building: Option<string>, salt: int): (h: string)
    ensures |h| == FingerprintLength
    ensures forall i :: 0 <= i < |h| ==> IsHexChar(h[i])
    ensures h <= digest(Key(name, room, building, salt))
  {
    var d := digest(Key(name, room, building, salt));
    assert forall i :: 0 <= i < FingerprintLength ==> d[..FingerprintLength][i] == d[i];
    d[..FingerprintLength]
  }

  // ---------------------------------------------------------------------------
  // Normalisation
  // ---------------------------------------------------------------------------

  /** A missing, empty or whitespace-only room counts as "N/A". */
  lemma BlankRoomIsNoRoom(room: Option<string>)
    ensures RoomValue(room) == NoRoom <==> room.None? || AllSpace(room.value) || Strip(room.value) == NoRoom
  {
    StripEmptyIffSpace(OrEmpty(room));
  }

  /** A missing, empty or whitespace-only building counts as "Unassigned". */
  lemma BlankBuildingIsUnassigned(building: Option<string>)
    ensures BuildingValue(building) == NoBuilding <==> building.None? || AllSpace(building.value) || Strip(building.value) == NoBuilding
  {
    StripEmptyIffSpace(OrEmpty(building));
  }

  /**
   * `compute_hash(n, None, None) == compute_hash(n, " ", "") ==
   * compute_hash(n, "N/A", "Unassigned")`, for every salt.
   */
  lemma BlankFieldsHashAlike(digest: Digest, name: string, salt: int)
    ensures ComputeHash(digest, name, None, None, salt) == ComputeHash(digest, name, Some(" "), Some(""), salt)
    ensures ComputeHash(digest, name, None, None, salt) == ComputeHash(digest, name, Some(NoRoom), Some(NoBuilding), salt)
  {
    BlankValues();
    var k := Key(name, None, None, salt);
    assert k == Key(name, Some(" "), Some(""), salt);
    assert k == Key(name, Some(NoRoom), Some(NoBuilding), salt);
  }

  lemma BlankValues()
    ensures RoomValue(None) == NoRoom && RoomValue(Some(" ")) == NoRoom && RoomValue(Some(NoRoom)) == NoRoom
    ensures BuildingValue(None) == NoBuilding && BuildingValue(Some("")) == NoBuilding
    ensures BuildingValue(Some(NoBuilding)) == NoBuilding
  {
    StripBlanks();
    StripSentinels();
  }

  lemma StripBlanks()
    ensures Strip("") == "" && Strip(" ") == ""
  {
    assert AllSpace(" ");
    StripEmptyIffSpace(" ");
  }

  lemma StripSentinels()
    ensures Strip(NoRoom) == NoRoom && Strip(NoBuilding) == NoBuilding
  {
    StripTrimmed(NoRoom);
    StripTrimmed(NoBuilding);
  }

  /** Whitespace around the name, the room or the building does not change the fingerprint. */
  lemma PaddingIgnored(digest: Digest, name: string, room: string, building: string, salt: int,
                       p1: string, p2: string, p3: string, p4: string, p5: string, p6: string)
    requires AllSpace(p1) && AllSpace(p2) && AllSpace(p3) && AllSpace(p4) && AllSpace(p5) && AllSpace(p6)
    ensures ComputeHash(digest, p1 + name + p2, Some(p3 + room + p4), Some(p5 + building + p6), salt)
         == ComputeHash(digest, name, Some(room), Some(building), salt)
  {
    PaddedBaseKey(name, room, building, p1, p2, p3, p4, p5, p6);
    SameBaseSameHash(digest, p1 + name + p2, Some(p3 + room + p4), Some(p5 + building + p6), name, Some(room), Some(building), salt);
  }

  /** The fingerprint depends on the fields only through the bare key. */
  lemma SameBaseSameHash(digest: Digest, n1: string, r1: Option<string>, b1: Option<string>,
                         n2: string, r2: Option<string>, b2: Option<string>, salt: int)
    requires BaseKey(n1, r1, b1) == BaseKey(n2, r2, b2)
    ensures ComputeHash(digest, n1, r1, b1, salt) == ComputeHash(digest, n2, r2, b2, salt)
  {
    assert Key(n1, r1, b1, salt) == Key(n2, r2, b2, salt);
  }

  lemma PaddedBaseKey(name: string, room: string, building: string,
                      p1: string, p2: string, p3: string, p4: string, p5: string, p6: string)
    requires AllSpace(p1) && AllSpace(p2) && AllSpace(p3) && AllSpace(p4) && AllSpace(p5) && AllSpace(p6)
    ensures BaseKey(p1 + name + p2, Some(p3 + room + p4), Some(p5 + building + p6)) == BaseKey(name, Some(room), Some(building))
  {
    StripOfPadded(p1, name, p2);
    StripOfPadded(p3, room, p4);
    StripOfPadded(p5, building, p6);
  }

  // ---------------------------------------------------------------------------
  // Salting
  // ---------------------------------------------------------------------------

  /**
   * Salt 0 hashes the bare key; for any other salt the key is the bare key
   * and "::salt" followed by text that parses back to that salt.
   */
  lemma SaltSuffixRoundTrip(name: string, room: Option<string>, building: Option<string>, salt: int)
    ensures salt == 0 ==> Key(name, room, building, salt) == BaseKey(name, room, building)
    ensures var b := BaseKey(name, room, building) + "::salt";
      salt != 0 ==> b <= Key(name, room, building, salt) && ParseInt(Key(name, room, building, salt)[|b|..]) == Some(salt)
  {
    if salt != 0 {
      var b := BaseKey(name, room, building) + "::salt";
      assert Key(name, room, building, salt)[|b|..] == IntToString(salt);
      IntRoundTrip(salt);
    }
  }

  /** Two different salts never give the same key. */
  lemma DistinctSaltsDistinctKeys(name: string, room: Option<string>, building: Option<string>, s1: int, s2: int)
    requires s1 != s2
    ensures Key(name, room, building, s1) != Key(name, room, building, s2)
  {
    SaltSuffixRoundTrip(name, room, building, s1);
    SaltSuffixRoundTrip(name, room, building, s2);
  }
}
