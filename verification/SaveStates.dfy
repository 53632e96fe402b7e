/**
 The save-state format (src/save_state_store.cpp): a 24-byte header with a size and a
 checksum, then the state. A file without the magic is read as a legacy raw state.
 */
module SaveStates {
  import opened Bytes
  import opened Integers

  const MAGIC: seq<byte> := [0x41, 0x59, 0x54, 0x48, 0x53, 0x54, 0x41, 0x54]  // AYTHSTAT
  const VERSION: nat := 1
  const HEADER: nat := 24

  datatype LoadResult = Loaded(version: nat, state: seq<byte>) | Invalid | UnsupportedVersion(version: nat)

  function Encode(state: seq<byte>): seq<byte> {
    MAGIC + Le(VERSION, 4) + Le(|state|, 8) + Le(Checksum(state), 4) + state
  }

  function Load(bytes: seq<byte>): LoadResult {
    if bytes == [] then Invalid
    else if |bytes| < 8 || bytes[..8] != MAGIC then Loaded(0, bytes)
    else if |bytes| < HEADER then Invalid
    else if LeValue(bytes[8..12]) != VERSION then UnsupportedVersion(LeValue(bytes[8..12]))
    else if LeValue(bytes[12..20]) != |bytes| - HEADER then Invalid
    else if Checksum(bytes[HEADER..]) != LeValue(bytes[20..24]) then Invalid
    else Loaded(VERSION, bytes[HEADER..])
  }

  method EncodeState(state: seq<byte>) returns (bytes: seq<byte>)
    ensures bytes == Encode(state)
  {
    bytes := AppendLe(MAGIC, VERSION, 4);
    bytes := AppendLe(bytes, |state|, 8);
    var checksum := ComputeChecksum(state);
    bytes := AppendLe(bytes, checksum, 4);
    bytes := bytes + state;
  }

  method LoadState(bytes: seq<byte>) returns (result: LoadResult)
    ensures result == Load(bytes)
  {
    if bytes == [] { return Invalid; }
    if |bytes| < 8 || bytes[..8] != MAGIC { return Loaded(0, bytes); }
    if |bytes| < HEADER { return Invalid; }
    var offset := 8;
    var version := ReadLe(bytes, offset, 4);
    offset := offset + 4;
    if version != VERSION { return UnsupportedVersion(version); }
    var size := ReadLe(bytes, offset, 8);
    offset := offset + 8;
    var expected := ReadLe(bytes, offset, 4);
    offset := offset + 4;
    if size != |bytes| - offset { return Invalid; }
    var checksum := ComputeChecksum(bytes[offset..]);
    if checksum != expected { return Invalid; }
    result := Loaded(version, bytes[offset..]);
  }

  lemma Layout(state: seq<byte>)
    requires HEADER + |state| < TWO_64
    ensures |Encode(state)| == HEADER + |state|
    ensures Encode(state)[..8] == MAGIC
    ensures LeValue(Encode(state)[8..12]) == VERSION
    ensures LeValue(Encode(state)[12..20]) == |state|
    ensures LeValue(Encode(state)[20..24]) == Checksum(state)
    ensures Encode(state)[HEADER..] == state
  {
    Widths();
    Joined(MAGIC, Le(VERSION, 4), Le(|state|, 8), Le(Checksum(state), 4), state);
    LeRoundTrip(VERSION, 4);
    LeRoundTrip(|state|, 8);
    LeRoundTrip(Checksum(state), 4);
  }

  lemma Joined(magic: seq<byte>, version: seq<byte>, size: seq<byte>, sum: seq<byte>, state: seq<byte>)
    requires |magic| == 8 && |version| == 4 && |size| == 8 && |sum| == 4
    ensures var bytes := magic + version + size + sum + state;
            && bytes[..8] == magic && bytes[8..12] == version && bytes[12..20] == size && bytes[20..24] == sum
            && bytes[HEADER..] == state
  {
  }

  /** A saved state loads as it was saved. */
  lemma RoundTrip(state: seq<byte>)
    requires HEADER + |state| < TWO_64
    ensures Load(Encode(state)) == Loaded(VERSION, state)
  {
    Layout(state);
  }

  /** A versioned file that loads is the encoding of the state it loads as. */
  lemma OnlyEncodingsLoad(bytes: seq<byte>)
    requires Load(bytes).Loaded? && Load(bytes).version == VERSION
    ensures bytes == Encode(Load(bytes).state)
  {
    LeOnto(bytes[8..12]);
    LeOnto(bytes[12..20]);
    LeOnto(bytes[20..24]);
    Pieces(bytes);
  }

  lemma Pieces(bytes: seq<byte>)
    requires |bytes| >= HEADER
    ensures bytes == bytes[..8] + bytes[8..12] + bytes[12..20] + bytes[20..24] + bytes[HEADER..]
  {
  }

  /** Changing one byte is refused exactly when it lies after the magic; a changed magic makes
      the whole file a legacy state. */
  lemma OneByteIsSeen(state: seq<byte>, i: nat, v: byte)
    requires HEADER + |state| < TWO_64 && i < |Encode(state)| && Encode(state)[i] != v
    ensures i < 8 ==> Load(Encode(state)[i := v]) == Loaded(0, Encode(state)[i := v])
    ensures i >= 8 ==> !Load(Encode(state)[i := v]).Loaded?
  {
    var bytes := Encode(state);
    var bad := bytes[i := v];
    Layout(state);
    FieldSeesOneByte(bytes, i, v, 8, 12);
    FieldSeesOneByte(bytes, i, v, 12, 20);
    FieldSeesOneByte(bytes, i, v, 20, 24);
    if i < 8 {
      assert bad[..8][i] != MAGIC[i];
    } else {
      assert bad[..8] == bytes[..8];
      if i >= HEADER {
        assert bad[HEADER..] == state[i - HEADER := v];
        if Checksum(bad[HEADER..]) == Checksum(state) { ChecksumSeesOneByte(state, i - HEADER, v); }
      } else {
        assert bad[HEADER..] == state;
      }
    }
  }

  /** A cut file is refused exactly when it keeps the whole magic or nothing; a shorter cut is
      read as a legacy state. */
  lemma CutIsSeen(state: seq<byte>, n: nat)
    requires HEADER + |state| < TWO_64 && n < |Encode(state)|
    ensures 0 < n < 8 ==> Load(Encode(state)[..n]) == Loaded(0, Encode(state)[..n])
    ensures n == 0 || n >= 8 ==> Load(Encode(state)[..n]) == Invalid
  {
    var bytes := Encode(state);
    Layout(state);
    if n >= 8 { assert bytes[..n][..8] == bytes[..8]; }
    if n >= HEADER {
      assert bytes[..n][8..12] == bytes[8..12];
      assert bytes[..n][12..20] == bytes[12..20];
    }
  }

  /** A state file byte by byte: the letters AYTHSTAT, version 1, the length, the checksum of the
      state, then the state. */
  lemma FileIs(state: seq<byte>)
    requires HEADER + |state| < TWO_64
    ensures var bytes := Encode(state);
            && |bytes| == 24 + |state|
            && (forall i :: 0 <= i < 8 ==> bytes[i] == "AYTHSTAT"[i] as int)
            && LeValue(bytes[8..12]) == 1 && LeValue(bytes[12..20]) == |state|
            && LeValue(bytes[20..24]) == Checksum(state) && bytes[24..] == state
  {
    Layout(state);
    forall i | 0 <= i < 8 ensures Encode(state)[i] == "AYTHSTAT"[i] as int {
      assert Encode(state)[i] == Encode(state)[..8][i];
    }
  }
}
