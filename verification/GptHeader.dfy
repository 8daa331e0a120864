/** The GUID partition table header: its fields, its signature and checksum, and the three edits the updater makes. */
module GptHeader {
  import opened Bytes

  // "EFI PART" with the terminator that sizeof counts in.
  const GPT_SIGNATURE: seq<byte> := [0x45, 0x46, 0x49, 0x20, 0x50, 0x41, 0x52, 0x54, 0x00]
  const HEADER_SIZE_OFFSET := 12
  const HEADER_CRC_OFFSET := 16
  const PENTRIES_OFFSET := 72
  const PARTITION_COUNT_OFFSET := 80
  const PENTRY_SIZE_OFFSET := 84
  const PARTITION_CRC_OFFSET := 88
  const MIN_HEADER_SIZE := 92

  /** The checksum is a parameter: nothing below depends on which function it is. */
  type Crc = seq<byte> -> uint32

  datatype GptState = Ok | BadSignature | BadCrc

  /** A block that holds a header whose checksummed length lies within the block. */
  predicate Shaped(h: seq<byte>) {
    MIN_HEADER_SIZE <= |h| && MIN_HEADER_SIZE <= Get4(h, HEADER_SIZE_OFFSET) <= |h|
  }

  predicate Signed(h: seq<byte>)
    requires |h| >= |GPT_SIGNATURE|
  {
    h[..|GPT_SIGNATURE|] == GPT_SIGNATURE
  }

  /** The checksum of a header, taken with its own checksum field cleared. */
  function HeaderCrc(crc: Crc, h: seq<byte>): uint32
    requires Shaped(h)
  {
    crc(Put4(h, HEADER_CRC_OFFSET, 0)[..Get4(h, HEADER_SIZE_OFFSET)])
  }

  /** How the updater classifies a header; a wrong checksum hides a wrong signature. */
  function StateOf(crc: Crc, h: seq<byte>): GptState
    requires Shaped(h)
  {
    if HeaderCrc(crc, h) != Get4(h, HEADER_CRC_OFFSET) then BadCrc
    else if Signed(h) then Ok
    else BadSignature
  }

  /** Recomputes the header checksum. */
  function Seal(crc: Crc, h: seq<byte>): (r: seq<byte>)
    requires Shaped(h)
    ensures |r| == |h|
    ensures forall k :: 0 <= k < |h| && !(HEADER_CRC_OFFSET <= k < HEADER_CRC_OFFSET + 4) ==> r[k] == h[k]
  {
    Put4(h, HEADER_CRC_OFFSET, HeaderCrc(crc, h))
  }

  function Restamp(h: seq<byte>): (r: seq<byte>)
    requires |h| >= |GPT_SIGNATURE|
    ensures |r| == |h|
  {
    Patch(h, 0, GPT_SIGNATURE)
  }

  /** The three edits: spoil the signature, restore it, change the entry-array checksum. */
  function Spoil(crc: Crc, h: seq<byte>): (r: seq<byte>)
    requires Shaped(h)
    ensures |r| == |h|
  {
    Seal(crc, h[0 := 0])
  }

  function Mend(crc: Crc, h: seq<byte>): (r: seq<byte>)
    requires Shaped(h)
    ensures |r| == |h|
  {
    Seal(crc, Restamp(h))
  }

  function WithEntryCrc(crc: Crc, h: seq<byte>, c: uint32): (r: seq<byte>)
    requires Shaped(h)
    ensures |r| == |h|
  {
    Seal(crc, Put4(h, PARTITION_CRC_OFFSET, c))
  }

  /** The header `h` with its signature kept or spoiled and entry checksum `c`, sealed. */
  function Variant(crc: Crc, h: seq<byte>, signed: bool, c: uint32): (r: seq<byte>)
    requires Shaped(h)
    ensures |r| == |h| && Shaped(r)
  {
    var body := Put4(if signed then h else h[0 := 0], PARTITION_CRC_OFFSET, c);
    SealFrame(crc, body);
    Seal(crc, body)
  }

  lemma SealFrame(crc: Crc, h: seq<byte>)
    requires Shaped(h)
    ensures Shaped(Seal(crc, h))
    ensures HeaderCrc(crc, Seal(crc, h)) == Get4(Seal(crc, h), HEADER_CRC_OFFSET)
  {
    var r := Seal(crc, h);
    GetOfPut(h, HEADER_CRC_OFFSET, HeaderCrc(crc, h));
    assert Put4(r, HEADER_CRC_OFFSET, 0) == Put4(h, HEADER_CRC_OFFSET, 0);
  }

  /** Sealing forgets the old checksum, and only that. */
  lemma SealAgree(crc: Crc, h: seq<byte>, h': seq<byte>)
    requires Shaped(h) && |h'| == |h|
    requires forall k :: 0 <= k < |h| && !(HEADER_CRC_OFFSET <= k < HEADER_CRC_OFFSET + 4) ==> h'[k] == h[k]
    ensures Shaped(h') && Seal(crc, h') == Seal(crc, h)
  {
    assert Put4(h', HEADER_CRC_OFFSET, 0) == Put4(h, HEADER_CRC_OFFSET, 0);
    assert Seal(crc, h') == Seal(crc, h);
  }

  /** A header with the right checksum is its own seal. */
  lemma SealOfValid(crc: Crc, h: seq<byte>)
    requires Shaped(h) && StateOf(crc, h) != BadCrc
    ensures Seal(crc, h) == h
  {
    PutOfGet(h, HEADER_CRC_OFFSET);
  }

  lemma VariantFields(crc: Crc, h: seq<byte>, signed: bool, c: uint32)
    requires Shaped(h)
    ensures var v := Variant(crc, h, signed, c);
      && Get8(v, PENTRIES_OFFSET) == Get8(h, PENTRIES_OFFSET)
      && Get4(v, PARTITION_COUNT_OFFSET) == Get4(h, PARTITION_COUNT_OFFSET)
      && Get4(v, PENTRY_SIZE_OFFSET) == Get4(h, PENTRY_SIZE_OFFSET)
      && Get4(v, PARTITION_CRC_OFFSET) == c
  {
    var body := Put4(if signed then h else h[0 := 0], PARTITION_CRC_OFFSET, c);
    GetOfPut(if signed then h else h[0 := 0], PARTITION_CRC_OFFSET, c);
    assert Get4(Seal(crc, body), PARTITION_CRC_OFFSET) == Get4(body, PARTITION_CRC_OFFSET);
  }

  /** A variant never decodes as a checksum failure, and decodes as good exactly when its signature was kept. */
  lemma VariantState(crc: Crc, h: seq<byte>, signed: bool, c: uint32)
    requires Shaped(h) && Signed(h)
    ensures StateOf(crc, Variant(crc, h, signed, c)) == if signed then Ok else BadSignature
  {
    var body := Put4(if signed then h else h[0 := 0], PARTITION_CRC_OFFSET, c);
    SealFrame(crc, body);
    var v := Variant(crc, h, signed, c);
    if signed {
      assert v[..|GPT_SIGNATURE|] == h[..|GPT_SIGNATURE|];
    } else {
      assert v[..|GPT_SIGNATURE|][0] == 0;
    }
  }

  // The three edits only move between variants of one original header.
  lemma SpoilVariant(crc: Crc, h: seq<byte>, signed: bool, c: uint32)
    requires Shaped(h)
    ensures Spoil(crc, Variant(crc, h, signed, c)) == Variant(crc, h, false, c)
  {
    SealAgree(crc, Put4(h[0 := 0], PARTITION_CRC_OFFSET, c), Variant(crc, h, signed, c)[0 := 0]);
  }

  lemma MendVariant(crc: Crc, h: seq<byte>, signed: bool, c: uint32)
    requires Shaped(h) && Signed(h)
    ensures Mend(crc, Variant(crc, h, signed, c)) == Variant(crc, h, true, c)
  {
    assert forall k {:trigger h[k]} :: 0 <= k < |GPT_SIGNATURE| ==> h[k] == h[..|GPT_SIGNATURE|][k];
    SealAgree(crc, Put4(h, PARTITION_CRC_OFFSET, c), Restamp(Variant(crc, h, signed, c)));
  }

  lemma EntryCrcVariant(crc: Crc, h: seq<byte>, signed: bool, c: uint32, c': uint32)
    requires Shaped(h)
    ensures WithEntryCrc(crc, Variant(crc, h, signed, c), c') == Variant(crc, h, signed, c')
  {
    var body := Put4(if signed then h else h[0 := 0], PARTITION_CRC_OFFSET, c');
    SealAgree(crc, body, Put4(Variant(crc, h, signed, c), PARTITION_CRC_OFFSET, c'));
  }

  /** An intact header is the variant of itself that keeps everything. */
  lemma VariantOfSelf(crc: Crc, h: seq<byte>)
    requires Shaped(h) && StateOf(crc, h) == Ok
    ensures Variant(crc, h, true, Get4(h, PARTITION_CRC_OFFSET)) == h
  {
    PutOfGet(h, PARTITION_CRC_OFFSET);
    SealOfValid(crc, h);
  }

  /** Spoiling an intact header and mending it again gives back every byte. */
  lemma SpoilMendIdentity(crc: Crc, h: seq<byte>)
    requires Shaped(h) && StateOf(crc, h) == Ok
    ensures Shaped(Spoil(crc, h)) && StateOf(crc, Spoil(crc, h)) == BadSignature
    ensures Mend(crc, Spoil(crc, h)) == h
  {
    var c := Get4(h, PARTITION_CRC_OFFSET);
    VariantOfSelf(crc, h);
    SpoilVariant(crc, h, true, c);
    MendVariant(crc, h, false, c);
    VariantState(crc, h, false, c);
  }

  // ---------- what decides a header's state ----------

  /** Which bytes the checksum reads: two headers have the same checksum, whatever function it is, exactly when
      their sizes agree and so do all bytes up to that size but those of the checksum field. */
  lemma ChecksumCovers(h: seq<byte>, h': seq<byte>)
    requires Shaped(h) && Shaped(h')
    ensures (forall crc: Crc :: HeaderCrc(crc, h) == HeaderCrc(crc, h')) <==>
      var n := Get4(h, HEADER_SIZE_OFFSET);
      && Get4(h', HEADER_SIZE_OFFSET) == n
      && (forall k :: 0 <= k < n && !(HEADER_CRC_OFFSET <= k < HEADER_CRC_OFFSET + 4) ==> h[k] == h'[k])
  {
    var n, n' := Get4(h, HEADER_SIZE_OFFSET), Get4(h', HEADER_SIZE_OFFSET);
    var a, b := Put4(h, HEADER_CRC_OFFSET, 0)[..n], Put4(h', HEADER_CRC_OFFSET, 0)[..n'];
    assert forall k :: HEADER_CRC_OFFSET <= k < HEADER_CRC_OFFSET + 4 ==> a[k] == 0 && b[k] == 0;
    assert forall k :: 0 <= k < n && !(HEADER_CRC_OFFSET <= k < HEADER_CRC_OFFSET + 4) ==> a[k] == h[k];
    assert forall k :: 0 <= k < n' && !(HEADER_CRC_OFFSET <= k < HEADER_CRC_OFFSET + 4) ==> b[k] == h'[k];
    if a != b {
      var tell: Crc := s => if s == a then 1 else 0;
      assert HeaderCrc(tell, h) != HeaderCrc(tell, h');
    }
  }

  /** Nothing past the header size changes the state. */
  lemma StateIgnoresTail(crc: Crc, h: seq<byte>, h': seq<byte>)
    requires Shaped(h) && |h'| == |h| && forall k :: 0 <= k < Get4(h, HEADER_SIZE_OFFSET) ==> h'[k] == h[k]
    ensures Shaped(h') && StateOf(crc, h') == StateOf(crc, h)
  {
    ChecksumCovers(h, h');
    assert h'[..|GPT_SIGNATURE|] == h[..|GPT_SIGNATURE|];
  }

  /** A header is BAD_CRC exactly when its checksum field holds anything but the checksum, which does not depend on
      that field; and then its signature does not matter. */
  lemma FieldDecidesCrc(crc: Crc, h: seq<byte>, c: uint32)
    requires Shaped(h)
    ensures var h' := Put4(h, HEADER_CRC_OFFSET, c);
      && Shaped(h')
      && (StateOf(crc, h') == BadCrc <==> c != HeaderCrc(crc, h))
      && (StateOf(crc, h') == Ok <==>
            c == HeaderCrc(crc, h) && h[..9] == [0x45, 0x46, 0x49, 0x20, 0x50, 0x41, 0x52, 0x54, 0])
  {
    var h' := Put4(h, HEADER_CRC_OFFSET, c);
    GetOfPut(h, HEADER_CRC_OFFSET, c);
    assert Put4(h', HEADER_CRC_OFFSET, 0) == Put4(h, HEADER_CRC_OFFSET, 0);
    assert h'[..9] == h[..9];
  }

  /** The edits, on any header: spoiling gives BAD_SIGNATURE, mending OK, and a new entry checksum, which is then
      the one held, leaves the signature to decide. */
  lemma EditedStates(crc: Crc, h: seq<byte>, c: uint32)
    requires Shaped(h)
    ensures Shaped(Spoil(crc, h)) && StateOf(crc, Spoil(crc, h)) == BadSignature
    ensures Shaped(Mend(crc, h)) && StateOf(crc, Mend(crc, h)) == Ok
    ensures var h' := WithEntryCrc(crc, h, c);
      && Shaped(h') && StateOf(crc, h') == (if Signed(h) then Ok else BadSignature)
      && Get4(h', PARTITION_CRC_OFFSET) == c
  {
    SealFrame(crc, h[0 := 0]);
    SealFrame(crc, Restamp(h));
    SealFrame(crc, Put4(h, PARTITION_CRC_OFFSET, c));
    SpoiledIsUnsigned(crc, h);
    MendedIsSigned(crc, h);
    RestampedIsSigned(crc, h, c);
    hide Seal, Get4, Put4, Signed, HeaderCrc;
  }

  lemma SpoiledIsUnsigned(crc: Crc, h: seq<byte>)
    requires Shaped(h)
    ensures !Signed(Spoil(crc, h))
  {
    assert Spoil(crc, h)[..|GPT_SIGNATURE|][0] == 0;
  }

  lemma MendedIsSigned(crc: Crc, h: seq<byte>)
    requires Shaped(h)
    ensures Signed(Mend(crc, h))
  {
    assert Mend(crc, h)[..|GPT_SIGNATURE|] == GPT_SIGNATURE;
  }

  lemma RestampedIsSigned(crc: Crc, h: seq<byte>, c: uint32)
    requires Shaped(h)
    ensures var h' := WithEntryCrc(crc, h, c); (Signed(h') <==> Signed(h)) && Get4(h', PARTITION_CRC_OFFSET) == c
  {
    var body := Put4(h, PARTITION_CRC_OFFSET, c);
    GetOfPut(h, PARTITION_CRC_OFFSET, c);
    assert Get4(Seal(crc, body), PARTITION_CRC_OFFSET) == Get4(body, PARTITION_CRC_OFFSET);
    assert WithEntryCrc(crc, h, c)[..|GPT_SIGNATURE|] == h[..|GPT_SIGNATURE|];
  }
}
