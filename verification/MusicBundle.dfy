/**
 The music state bundle format (src/music_state_bundle_store.h): a 36-byte header with three
 sizes and a checksum, then the payload.
 */
module MusicBundle {
  import opened Bytes
  import opened Integers

  const MAGIC: seq<byte> := [0x41, 0x59, 0x4D, 0x55, 0x53, 0x49, 0x43, 0x53]  // AYMUSICS
  const VERSION: nat := 1
  const HEADER: nat := 36

  datatype Bundle = Bundle(game: seq<byte>, hd: seq<byte>, pack: seq<byte>)

  /** `OutOfRange`: the 64-bit sum of the sizes wrapped, and the source then copies past the
      end of the payload, which the language leaves undefined. */
  datatype Decoded = Loaded(bundle: Bundle) | Invalid | UnsupportedVersion | OutOfRange

  function Payload(b: Bundle): seq<byte> { b.game + b.hd + b.pack }

  function Header(b: Bundle): (h: seq<byte>)
    ensures |h| == HEADER
  {
    MAGIC + Le(VERSION, 4) + Le(|b.game|, 8) + Le(|b.hd|, 8) + Le(|b.pack|, 4) + Le(Checksum(Payload(b)), 4)
  }

  function Encode(b: Bundle): seq<byte> { Header(b) + Payload(b) }

  function Decode(bytes: seq<byte>): Decoded {
    if |bytes| < HEADER || bytes[..8] != MAGIC then Invalid
    else if LeValue(bytes[8..12]) != VERSION then UnsupportedVersion
    else Split(LeValue(bytes[12..20]), LeValue(bytes[20..28]), LeValue(bytes[28..32]),
               LeValue(bytes[32..36]), bytes[HEADER..])
  }

  /** The payload cut into its three parts, if the header's sizes and checksum describe it. */
  function Split(game: nat, hd: nat, pack: nat, expected: nat, payload: seq<byte>): Decoded {
    if (game + hd + pack) % TWO_64 != |payload| then Invalid
    else if Checksum(payload) != expected then Invalid
    else if game + hd + pack != |payload| then OutOfRange
    else Loaded(Bundle(payload[..game], payload[game..game + hd], payload[game + hd..]))
  }

  /** Any bundle a 64-bit process can hold. */
  predicate Holdable(b: Bundle) { HEADER + |b.game| + |b.hd| + |b.pack| < TWO_64 }

  /** The encoder appends field by field, then the payload. */
  method EncodeBundle(b: Bundle) returns (bytes: seq<byte>)
    ensures bytes == Encode(b)
  {
    var payload := b.game;
    payload := payload + b.hd;
    payload := payload + b.pack;
    bytes := AppendLe(MAGIC, VERSION, 4);
    bytes := AppendLe(bytes, |b.game|, 8);
    bytes := AppendLe(bytes, |b.hd|, 8);
    bytes := AppendLe(bytes, |b.pack|, 4);
    var checksum := ComputeChecksum(payload);
    bytes := AppendLe(bytes, checksum, 4);
    bytes := bytes + payload;
  }

  method DecodeBundle(bytes: seq<byte>) returns (result: Decoded)
    ensures result == Decode(bytes)
  {
    if |bytes| < HEADER || bytes[..8] != MAGIC { return Invalid; }
    var version := ReadLe(bytes, 8, 4);
    if version != VERSION { return UnsupportedVersion; }
    var game := ReadLe(bytes, 12, 8);
    var hd := ReadLe(bytes, 20, 8);
    var pack := ReadLe(bytes, 28, 4);
    var expected := ReadLe(bytes, 32, 4);
    var payload := bytes[HEADER..];
    if (game + hd + pack) % TWO_64 != |payload| { return Invalid; }
    var checksum := ComputeChecksum(payload);
    if checksum != expected { return Invalid; }
    if game + hd + pack != |payload| { return OutOfRange; }
    result := Loaded(Bundle(payload[..game], payload[game..game + hd], payload[game + hd..]));
  }

  /** What the header of a file says, and the payload after it. */
  datatype Parts = Parts(game: nat, hd: nat, pack: nat, expected: nat, payload: seq<byte>)
  {
    /** The sizes add up to the payload and the checksum is its own. */
    predicate Right() {
      game + hd + pack == |payload| < TWO_64 && pack < TWO_32 && expected == Checksum(payload)
    }
  }

  predicate Describes(bytes: seq<byte>, p: Parts) {
    && |bytes| == HEADER + |p.payload|
    && bytes[..8] == MAGIC
    && LeValue(bytes[8..12]) == VERSION
    && LeValue(bytes[12..20]) == p.game
    && LeValue(bytes[20..28]) == p.hd
    && LeValue(bytes[28..32]) == p.pack
    && LeValue(bytes[32..36]) == p.expected
    && bytes[HEADER..] == p.payload
  }

  lemma Layout(b: Bundle)
    ensures |Encode(b)| == HEADER + |Payload(b)|
    ensures Encode(b)[..8] == MAGIC
    ensures Encode(b)[8..12] == Le(VERSION, 4)
    ensures Encode(b)[12..20] == Le(|b.game|, 8)
    ensures Encode(b)[20..28] == Le(|b.hd|, 8)
    ensures Encode(b)[28..32] == Le(|b.pack|, 4)
    ensures Encode(b)[32..36] == Le(Checksum(Payload(b)), 4)
    ensures Encode(b)[HEADER..] == Payload(b)
  {
    SixFields(MAGIC, Le(VERSION, 4), Le(|b.game|, 8), Le(|b.hd|, 8), Le(|b.pack|, 4),
              Le(Checksum(Payload(b)), 4), Payload(b));
  }

  lemma SixFields(m: seq<byte>, v: seq<byte>, g: seq<byte>, h: seq<byte>, k: seq<byte>, c: seq<byte>, p: seq<byte>)
    requires |m| == 8 && |v| == 4 && |g| == 8 && |h| == 8 && |k| == 4 && |c| == 4
    ensures var all := m + v + g + h + k + c + p;
            && |all| == HEADER + |p| && all[..8] == m && all[8..12] == v && all[12..20] == g
            && all[20..28] == h && all[28..32] == k && all[32..36] == c && all[HEADER..] == p
  {
  }

  /** An encoded bundle describes its own payload; the revision's length is cut to 32 bits. */
  lemma EncodedDescribes(b: Bundle) returns (p: Parts)
    requires Holdable(b)
    ensures Describes(Encode(b), p)
    ensures p.game == |b.game| && p.hd == |b.hd| && p.payload == Payload(b) && p.expected == Checksum(Payload(b))
    ensures p.pack < TWO_32 && (|b.pack| < TWO_32 ==> p.pack == |b.pack|)
  {
    Layout(b);
    Widths();
    LeRoundTrip(VERSION, 4);
    LeRoundTrip(|b.game|, 8);
    LeRoundTrip(|b.hd|, 8);
    LeRoundTrip(Checksum(Payload(b)), 4);
    LeOnto(Le(|b.pack|, 4));
    if |b.pack| < TWO_32 { LeRoundTrip(|b.pack|, 4); }
    p := Parts(|b.game|, |b.hd|, LeValue(Le(|b.pack|, 4)), Checksum(Payload(b)), Payload(b));
  }

  lemma DescribedDecodes(bytes: seq<byte>, p: Parts)
    requires Describes(bytes, p)
    ensures Decode(bytes) == Split(p.game, p.hd, p.pack, p.expected, p.payload)
  {
  }

  /** Sizes that fit 64 bits and do not add up are refused. */
  lemma WrongSizes(p: Parts)
    requires p.game + p.hd + p.pack < TWO_64 && p.game + p.hd + p.pack != |p.payload|
    ensures Split(p.game, p.hd, p.pack, p.expected, p.payload) == Invalid
  {
  }

  lemma SplitPayload(b: Bundle)
    requires Holdable(b)
    ensures Split(|b.game|, |b.hd|, |b.pack|, Checksum(Payload(b)), Payload(b)) == Loaded(b)
  {
    assert Payload(b)[..|b.game|] == b.game;
    assert Payload(b)[|b.game|..|b.game| + |b.hd|] == b.hd;
    assert Payload(b)[|b.game| + |b.hd|..] == b.pack;
  }

  /** Decoding what was encoded gives the bundle back, exactly when the revision's length fits
      its 32-bit field; otherwise the bundle is refused, never misread. */
  lemma RoundTrip(b: Bundle)
    requires Holdable(b)
    ensures Decode(Encode(b)) == if |b.pack| < TWO_32 then Loaded(b) else Invalid
  {
    var p := EncodedDescribes(b);
    DescribedDecodes(Encode(b), p);
    if |b.pack| < TWO_32 { SplitPayload(b); } else { WrongSizes(p); }
  }

  /** Only encoded bundles load: a file that loads is the encoding of what it loads as. */
  lemma OnlyEncodingsLoad(bytes: seq<byte>)
    requires Decode(bytes).Loaded? && |bytes| < TWO_64
    ensures bytes == Encode(Decode(bytes).bundle)
    ensures |Decode(bytes).bundle.pack| < TWO_32
  {
    var b := Decode(bytes).bundle;
    Widths();
    LeOnto(bytes[8..12]);
    LeOnto(bytes[12..20]);
    LeOnto(bytes[20..28]);
    LeOnto(bytes[28..32]);
    LeOnto(bytes[32..36]);
    assert Payload(b) == bytes[HEADER..];
    Pieces(bytes);
  }

  lemma Pieces(bytes: seq<byte>)
    requires |bytes| >= HEADER
    ensures bytes == bytes[..8] + bytes[8..12] + bytes[12..20] + bytes[20..28] + bytes[28..32] + bytes[32..36]
                     + bytes[HEADER..]
  {
  }

  /** One changed size no longer adds up to the payload, not even modulo 2^64. */
  lemma WrongSum(right: nat, wrong: nat, others: nat, total: nat)
    requires right < TWO_64 && wrong < TWO_64 && right != wrong && right + others == total < TWO_64
    ensures (wrong + others) % TWO_64 != total
  {
  }

  lemma SizesAreSeen(bytes: seq<byte>, p: Parts, i: nat, v: byte)
    requires Describes(bytes, p) && p.Right() && 12 <= i < 32 && bytes[i] != v
    ensures Decode(bytes[i := v]) == Invalid
  {
    var bad := bytes[i := v];
    SumIsSeen(bytes, p, i, v);
    FieldSeesOneByte(bytes, i, v, 0, 8);
    FieldSeesOneByte(bytes, i, v, 8, 12);
    assert |bad[HEADER..]| == |p.payload|;
  }

  lemma SumIsSeen(bytes: seq<byte>, p: Parts, i: nat, v: byte)
    requires Describes(bytes, p) && p.Right() && 12 <= i < 32 && bytes[i] != v
    ensures var bad := bytes[i := v];
            (LeValue(bad[12..20]) + LeValue(bad[20..28]) + LeValue(bad[28..32])) % TWO_64 != |p.payload|
  {
    var bad := bytes[i := v];
    FieldSeesOneByte(bytes, i, v, 12, 20);
    FieldSeesOneByte(bytes, i, v, 20, 28);
    FieldSeesOneByte(bytes, i, v, 28, 32);
    FieldBounds(bad);
    var g, h, k := LeValue(bad[12..20]), LeValue(bad[20..28]), LeValue(bad[28..32]);
    if i < 20 {
      WrongSum(p.game, g, h + k, |p.payload|);
    } else if i < 28 {
      WrongSum(p.hd, h, g + k, |p.payload|);
    } else {
      WrongSum(p.pack, k, g + h, |p.payload|);
    }
  }

  lemma FieldBounds(bytes: seq<byte>)
    requires |bytes| >= HEADER
    ensures LeValue(bytes[12..20]) < TWO_64 && LeValue(bytes[20..28]) < TWO_64 && LeValue(bytes[28..32]) < TWO_32
  {
    Widths();
    LeOnto(bytes[12..20]);
    LeOnto(bytes[20..28]);
    LeOnto(bytes[28..32]);
  }

  lemma PayloadIsSeen(bytes: seq<byte>, p: Parts, i: nat, v: byte)
    requires Describes(bytes, p) && p.Right() && HEADER <= i < |bytes| && bytes[i] != v
    ensures Decode(bytes[i := v]) == Invalid
  {
    var bad := bytes[i := v];
    SamePrefix(bad, bytes);
    assert bad[HEADER..] == p.payload[i - HEADER := v];
    if Checksum(bad[HEADER..]) == p.expected { ChecksumSeesOneByte(p.payload, i - HEADER, v); }
  }

  lemma SamePrefix(a: seq<byte>, b: seq<byte>)
    requires |a| >= HEADER && |b| >= HEADER && forall k :: 0 <= k < HEADER ==> a[k] == b[k]
    ensures a[..8] == b[..8] && a[8..12] == b[8..12] && a[12..20] == b[12..20]
    ensures a[20..28] == b[20..28] && a[28..32] == b[28..32] && a[32..36] == b[32..36]
  {
  }

  lemma RestIsSeen(bytes: seq<byte>, p: Parts, i: nat, v: byte)
    requires Describes(bytes, p) && p.Right() && (i < 12 || 32 <= i < HEADER) && bytes[i] != v
    ensures Decode(bytes[i := v]).Invalid? || Decode(bytes[i := v]).UnsupportedVersion?
  {
    var bad := bytes[i := v];
    FieldSeesOneByte(bytes, i, v, 8, 12);
    FieldSeesOneByte(bytes, i, v, 32, 36);
    assert bad[HEADER..] == p.payload;
    if i < 8 { assert bad[..8][i] != MAGIC[i]; }
  }

  /** Changing any one byte of an encoded bundle makes it be refused. */
  lemma OneByteIsSeen(b: Bundle, i: nat, v: byte)
    requires Holdable(b) && |b.pack| < TWO_32 && i < |Encode(b)| && Encode(b)[i] != v
    ensures Decode(Encode(b)[i := v]).Invalid? || Decode(Encode(b)[i := v]).UnsupportedVersion?
  {
    var p := EncodedDescribes(b);
    if 12 <= i < 32 {
      SizesAreSeen(Encode(b), p, i, v);
    } else if i >= HEADER {
      PayloadIsSeen(Encode(b), p, i, v);
    } else {
      RestIsSeen(Encode(b), p, i, v);
    }
  }

  lemma CutDescribes(bytes: seq<byte>, p: Parts, n: nat)
    requires Describes(bytes, p) && HEADER <= n < |bytes|
    ensures Describes(bytes[..n], p.(payload := p.payload[..n - HEADER]))
  {
    SamePrefix(bytes[..n], bytes);
    assert bytes[..n][HEADER..] == p.payload[..n - HEADER];
  }

  /** Cutting any suffix off an encoded bundle makes it be refused. */
  lemma CutIsSeen(b: Bundle, n: nat)
    requires Holdable(b) && |b.pack| < TWO_32 && n < |Encode(b)|
    ensures Decode(Encode(b)[..n]) == Invalid
  {
    var p := EncodedDescribes(b);
    if n >= HEADER {
      var cut := p.(payload := p.payload[..n - HEADER]);
      CutDescribes(Encode(b), p, n);
      DescribedDecodes(Encode(b)[..n], cut);
      WrongSizes(cut);
    }
  }

  /** What the header says, read field by field. */
  function PartsOf(bytes: seq<byte>): Parts
    requires |bytes| >= HEADER
  {
    Parts(LeValue(bytes[12..20]), LeValue(bytes[20..28]), LeValue(bytes[28..32]), LeValue(bytes[32..36]),
          bytes[HEADER..])
  }

  /** The sizes are too large for the payload, and their 64-bit sum wraps to its length. */
  predicate Wraps(p: Parts) {
    && p.game + p.hd + p.pack >= TWO_64
    && (p.game + p.hd + p.pack - |p.payload|) % TWO_64 == 0
  }

  /** Exactly the files that make the decoder copy past the end of the payload: everything it
      checks is right, and the sizes add up to the payload only modulo 2^64. */
  lemma RunsPastThePayload(bytes: seq<byte>)
    requires |bytes| < TWO_64
    ensures Decode(bytes).OutOfRange? <==>
            && |bytes| >= HEADER && bytes[..8] == MAGIC && LeValue(bytes[8..12]) == VERSION
            && PartsOf(bytes).expected == Checksum(PartsOf(bytes).payload)
            && Wraps(PartsOf(bytes))
  {
    if |bytes| >= HEADER && bytes[..8] == MAGIC && LeValue(bytes[8..12]) == VERSION {
      DescribedDecodes(bytes, PartsOf(bytes));
      Congruent(PartsOf(bytes));
    }
  }

  lemma Congruent(p: Parts)
    requires |p.payload| < TWO_64
    ensures Wraps(p) <==>
            (p.game + p.hd + p.pack) % TWO_64 == |p.payload| && p.game + p.hd + p.pack != |p.payload|
  {
  }

  /** The header of any payload with sizes 2^64 - 1, one more than its length, and 0. */
  function Crafted(payload: seq<byte>): seq<byte> {
    MAGIC + Le(VERSION, 4) + Le(TWO_64 - 1, 8) + Le(|payload| + 1, 8) + Le(0, 4) + Le(Checksum(payload), 4) + payload
  }

  /** Any payload at all can be given a header that drives the decoder past its end. */
  lemma AnyPayloadCanBeCrafted(payload: seq<byte>)
    requires |payload| + 1 < TWO_64
    ensures Decode(Crafted(payload)) == OutOfRange
  {
    var p := Parts(TWO_64 - 1, |payload| + 1, 0, Checksum(payload), payload);
    CraftedDescribes(payload, p);
    DescribedDecodes(Crafted(payload), p);
    CraftedSplit(payload);
  }

  lemma CraftedSplit(payload: seq<byte>)
    requires |payload| + 1 < TWO_64
    ensures Split(TWO_64 - 1, |payload| + 1, 0, Checksum(payload), payload) == OutOfRange
  {
    assert (TWO_64 - 1 + (|payload| + 1) + 0) % TWO_64 == |payload|;
  }

  lemma CraftedDescribes(payload: seq<byte>, p: Parts)
    requires |payload| + 1 < TWO_64 && p == Parts(TWO_64 - 1, |payload| + 1, 0, Checksum(payload), payload)
    ensures Describes(Crafted(payload), p)
  {
    SixFields(MAGIC, Le(VERSION, 4), Le(TWO_64 - 1, 8), Le(|payload| + 1, 8), Le(0, 4),
              Le(Checksum(payload), 4), payload);
    Widths();
    LeRoundTrip(VERSION, 4);
    LeRoundTrip(TWO_64 - 1, 8);
    LeRoundTrip(|payload| + 1, 8);
    LeRoundTrip(0, 4);
    LeRoundTrip(Checksum(payload), 4);
  }

  /** A bundle file byte by byte: the letters AYMUSICS, version 1, the three lengths, the checksum
      of all that follows, then the game state, the HD state and their revision. */
  lemma FileIs(b: Bundle)
    requires Holdable(b)
    ensures var bytes, g, h := Encode(b), |b.game|, |b.hd|;
            && |bytes| == 36 + g + h + |b.pack|
            && (forall i :: 0 <= i < 8 ==> bytes[i] == "AYMUSICS"[i] as int)
            && bytes[8..12] == [1, 0, 0, 0]
            && bytes[12..20] == Le(g, 8) && bytes[20..28] == Le(h, 8) && bytes[28..32] == Le(|b.pack|, 4)
            && bytes[32..36] == Le(Checksum(b.game + b.hd + b.pack), 4)
            && bytes[36..36 + g] == b.game && bytes[36 + g..36 + g + h] == b.hd && bytes[36 + g + h..] == b.pack
  {
    Layout(b);
    VersionBytes();
    PayloadParts(Encode(b), b);
    assert Encode(b)[..8] == MAGIC;
    forall i | 0 <= i < 8 ensures Encode(b)[i] == "AYMUSICS"[i] as int {
      assert Encode(b)[i] == Encode(b)[..8][i];
    }
  }

  lemma VersionBytes()
    ensures Le(VERSION, 4) == [1, 0, 0, 0]
  {
    assert Le(0, 2) == [0, 0];
  }

  lemma PayloadParts(bytes: seq<byte>, b: Bundle)
    requires |bytes| == HEADER + |Payload(b)| && bytes[HEADER..] == Payload(b)
    ensures var g, h := |b.game|, |b.hd|;
            && bytes[36..36 + g] == b.game && bytes[36 + g..36 + g + h] == b.hd && bytes[36 + g + h..] == b.pack
  {
    var p := Payload(b);
    var g, h := |b.game|, |b.hd|;
    assert p[..g] == b.game && p[g..g + h] == b.hd && p[g + h..] == b.pack;
    assert bytes[36..36 + g] == bytes[36..][..g];
    assert bytes[36 + g..36 + g + h] == bytes[36..][g..g + h];
    assert bytes[36 + g + h..] == bytes[36..][g + h..];
  }
}
