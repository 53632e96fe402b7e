/**
 Bytes, little-endian integers and the 32-bit FNV-1a checksum shared by the music bundle and
 the save states (src/music_state_bundle_store.h, src/save_state_store.cpp).
 */
module Bytes {
  import opened Integers

  type byte = b: int | 0 <= b < 256

  // ---------------------------------------------------------------------------------------
  // Little-endian integers.
  // ---------------------------------------------------------------------------------------

  /** The n low bytes of v, lowest first. */
  function Le(v: nat, n: nat): (s: seq<byte>)
    ensures |s| == n
  {
    if n == 0 then [] else [v % 256] + Le(v / 256, n - 1)
  }

  function LeValue(s: seq<byte>): nat {
    if s == [] then 0 else s[0] + 256 * LeValue(s[1..])
  }

  function Pow256(n: nat): nat {
    if n == 0 then 1 else 256 * Pow256(n - 1)
  }

  /** Four and eight bytes hold 32 and 64 bits. */
  lemma Widths()
    ensures Pow256(4) == TWO_32 && Pow256(8) == TWO_64
  {
    assert Pow256(2) == 0x1_0000;
    assert Pow256(4) == TWO_32;
    assert Pow256(6) == 0x1_0000_0000_0000;
  }

  /** Reading back what was written gives the value, if the width holds it. */
  lemma {:induction false} LeRoundTrip(v: nat, n: nat)
    requires v < Pow256(n)
    ensures LeValue(Le(v, n)) == v
  {
    if n > 0 {
      LeRoundTrip(v / 256, n - 1);
      assert Le(v, n)[1..] == Le(v / 256, n - 1);
    }
  }

  /** Bytes are determined by the value they spell. */
  lemma {:induction false} LeOnto(s: seq<byte>)
    ensures LeValue(s) < Pow256(|s|)
    ensures Le(LeValue(s), |s|) == s
  {
    if s != [] {
      LeOnto(s[1..]);
      assert LeValue(s) % 256 == s[0] && LeValue(s) / 256 == LeValue(s[1..]);
    }
  }

  lemma LeDiffers(s: seq<byte>, t: seq<byte>)
    requires |s| == |t| && s != t
    ensures LeValue(s) != LeValue(t)
  {
    LeOnto(s);
    LeOnto(t);
  }

  /** The loop that appends an integer byte by byte. */
  method AppendLe(output: seq<byte>, v: nat, n: nat) returns (all: seq<byte>)
    ensures all == output + Le(v, n)
  {
    all := output;
    var value, left := v, n;
    while left > 0
      invariant all + Le(value, left) == output + Le(v, n)
    {
      assert all + Le(value, left) == (all + [value % 256]) + Le(value / 256, left - 1);
      all := all + [value % 256];
      value, left := value / 256, left - 1;
    }
  }

  /** The loop that reads an integer, each byte shifted to its place. */
  method ReadLe(bytes: seq<byte>, offset: nat, n: nat) returns (value: nat)
    requires offset + n <= |bytes|
    ensures value == LeValue(bytes[offset..offset + n])
  {
    value := 0;
    var place: nat := 1;
    for i := 0 to n
      invariant value == LeValue(bytes[offset..offset + i]) && place == Pow256(i)
    {
      LeSnoc(bytes[offset..offset + i], bytes[offset + i]);
      assert bytes[offset..offset + i] + [bytes[offset + i]] == bytes[offset..offset + i + 1];
      value := value + bytes[offset + i] * place;
      place := 256 * place;
    }
  }

  lemma {:induction false} LeSnoc(s: seq<byte>, b: byte)
    ensures LeValue(s + [b]) == LeValue(s) + b * Pow256(|s|)
  {
    if s == [] {
      assert (s + [b])[1..] == [];
    } else {
      assert (s + [b])[1..] == s[1..] + [b];
      LeSnoc(s[1..], b);
      assert 256 * (b * Pow256(|s| - 1)) == b * Pow256(|s|);
    }
  }

  // ---------------------------------------------------------------------------------------
  // FNV-1a.
  // ---------------------------------------------------------------------------------------

  const FNV_SEED: nat := 2166136261
  const FNV_PRIME: nat := 16777619

  /** Bitwise exclusive or. */
  function Xor(a: nat, b: nat): nat
    decreases a + b
  {
    if a == 0 && b == 0 then 0
    else (if a % 2 == b % 2 then 0 else 1) + 2 * Xor(a / 2, b / 2)
  }

  function Pow2(n: nat): nat {
    if n == 0 then 1 else 2 * Pow2(n - 1)
  }

  lemma {:induction false} XorUndoes(a: nat, b: nat)
    ensures Xor(a, Xor(a, b)) == b && Xor(Xor(a, b), b) == a
    decreases a + b
  {
    if a != 0 || b != 0 {
      XorUndoes(a / 2, b / 2);
      var x := Xor(a, b);
      assert x / 2 == Xor(a / 2, b / 2);
    }
  }

  lemma {:induction false} XorFits(a: nat, b: nat, n: nat)
    requires a < Pow2(n) && b < Pow2(n)
    ensures Xor(a, b) < Pow2(n)
    decreases n
  {
    if n > 0 { XorFits(a / 2, b / 2, n - 1); }
  }

  lemma Pow2Is32()
    ensures Pow2(32) == TWO_32
  {
    assert Pow2(8) == 256;
    assert Pow2(16) == 256 * Pow2(8);
    assert Pow2(24) == 256 * Pow2(16);
    assert Pow2(32) == 256 * Pow2(24);
  }

  function Mix(v: nat, b: byte): nat {
    Xor(v, b) * FNV_PRIME % TWO_32
  }

  function Checksum(bytes: seq<byte>): (c: nat)
    ensures c < TWO_32
  {
    if bytes == [] then FNV_SEED else Mix(Checksum(bytes[..|bytes| - 1]), bytes[|bytes| - 1])
  }

  method ComputeChecksum(bytes: seq<byte>) returns (value: nat)
    ensures value == Checksum(bytes)
  {
    value := FNV_SEED;
    for i := 0 to |bytes|
      invariant value == Checksum(bytes[..i])
    {
      assert bytes[..i + 1][..i] == bytes[..i];
      value := Xor(value, bytes[i]);
      value := value * FNV_PRIME % TWO_32;
    }
    assert bytes[..|bytes|] == bytes;
  }

  /** 16777619 · 899433627 ≡ 1 modulo 2^32, so multiplying by the prime loses nothing. */
  lemma PrimeIsInvertible(x: nat, y: nat)
    requires x < TWO_32 && y < TWO_32
    requires x * FNV_PRIME % TWO_32 == y * FNV_PRIME % TWO_32
    ensures x == y
  {
    var d := x - y;
    var k := x * FNV_PRIME / TWO_32 - y * FNV_PRIME / TWO_32;
    assert d * 16777619 == k * 0x1_0000_0000;
    assert 16777619 * 899433627 == 1 + 3513497 * 0x1_0000_0000;
    var t := 899433627 * k - 3513497 * d;
    assert d == 0x1_0000_0000 * t;
  }

  /** Different bytes mixed into the same value give different values… */
  lemma MixSeparatesBytes(v: nat, a: byte, b: byte)
    requires v < TWO_32 && Mix(v, a) == Mix(v, b)
    ensures a == b
  {
    Pow2Is32();
    XorFits(v, a, 32);
    XorFits(v, b, 32);
    PrimeIsInvertible(Xor(v, a), Xor(v, b));
    XorUndoes(v, a);
    XorUndoes(v, b);
  }

  /** … and a byte mixed into different values keeps them different. */
  lemma MixSeparatesValues(v: nat, w: nat, b: byte)
    requires v < TWO_32 && w < TWO_32 && Mix(v, b) == Mix(w, b)
    ensures v == w
  {
    Pow2Is32();
    XorFits(v, b, 32);
    XorFits(w, b, 32);
    PrimeIsInvertible(Xor(v, b), Xor(w, b));
    XorUndoes(v, b);
    XorUndoes(w, b);
  }

  /** Changing one byte of a payload always changes its checksum. */
  lemma {:induction false} ChecksumSeesOneByte(s: seq<byte>, i: nat, b: byte)
    requires i < |s| && Checksum(s[i := b]) == Checksum(s)
    ensures s[i] == b
  {
    var n := |s| - 1;
    if i == n {
      assert s[i := b][..n] == s[..n];
      MixSeparatesBytes(Checksum(s[..n]), s[n], b);
    } else {
      assert s[i := b][..n] == s[..n][i := b];
      MixSeparatesValues(Checksum(s[..n]), Checksum(s[..n][i := b]), s[n]);
      ChecksumSeesOneByte(s[..n], i, b);
    }
  }

  /** A field of a changed buffer reads differently exactly when the change is inside it. */
  lemma FieldSeesOneByte(s: seq<byte>, i: nat, b: byte, lo: nat, hi: nat)
    requires i < |s| && s[i] != b && lo <= hi <= |s|
    ensures lo <= i < hi ==> LeValue(s[i := b][lo..hi]) != LeValue(s[lo..hi])
    ensures !(lo <= i < hi) ==> s[i := b][lo..hi] == s[lo..hi]
  {
    if lo <= i < hi {
      assert s[i := b][lo..hi][i - lo] != s[lo..hi][i - lo];
      LeDiffers(s[i := b][lo..hi], s[lo..hi]);
    }
  }

  /** Fields are little-endian. */
  lemma KnownFields()
    ensures Le(0x0403_0201, 4) == [1, 2, 3, 4] && LeValue([1, 2, 3, 4]) == 0x0403_0201
  {
    assert Le(0x0403, 2) == [3, 4];
    var one: seq<byte> := [4];
    var two: seq<byte> := [3, 4];
    var three: seq<byte> := [2, 3, 4];
    var four: seq<byte> := [1, 2, 3, 4];
    assert one[1..] == [] && LeValue(one) == 4;
    assert two[1..] == one && LeValue(two) == 0x0403;
    assert three[1..] == two && LeValue(three) == 0x0004_0302;
    assert four[1..] == three;
  }

  lemma {:induction false} XorZero(a: nat)
    ensures Xor(a, 0) == a
    decreases a
  {
    if a != 0 { XorZero(a / 2); }
  }

  /** Published values of 32-bit FNV-1a: of nothing and of the letter a. */
  lemma KnownChecksums()
    ensures Checksum([]) == 0x811C9DC5
    ensures Checksum([0x61]) == 0xE40C292C
  {
    KnownXor();
    OneByte(0x61, 2166136228);
    assert 2166136228 * 16777619 == 8461672 * 0x1_0000_0000 + 0xE40C292C;
  }

  lemma OneByte(b: byte, x: nat)
    requires Xor(FNV_SEED, b) == x
    ensures Checksum([b]) == x * FNV_PRIME % TWO_32
  {
    assert [b][..0] == [];
  }

  lemma KnownXor()
    ensures Xor(2166136261, 0x61) == 2166136228
  {
    XorZero(16922939);
    assert Xor(33845879, 1) == 33845878;
    assert Xor(67691758, 3) == 67691757;
    assert Xor(135383516, 6) == 135383514;
    assert Xor(270767032, 12) == 270767028;
    assert Xor(541534065, 24) == 541534057;
    assert Xor(1083068130, 48) == 1083068114;
    assert Xor(2166136261, 97) == 2166136228;
  }
}
