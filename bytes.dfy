/** Bytes of a packet buffer and the little-endian integers they carry. */
module Bytes {

  /** One element of a Python bytearray. */
  type byte = x: int | 0 <= x < 256

  function Pow256(n: nat): (r: nat)
    ensures r >= 1
  {
    if n == 0 then 1 else 256 * Pow256(n - 1)
  }

  function Pow2(n: nat): (r: nat)
    ensures r >= 1
  {
    if n == 0 then 1 else 2 * Pow2(n - 1)
  }

  /** A shift by 8*n bits is a multiplication by 256^n. */
  lemma {:induction false} Pow2Bytes(n: nat)
    ensures Pow2(8 * n) == Pow256(n)
  {
    if n > 0 {
      Pow2Bytes(n - 1);
      assert Pow2(8 * n) == 256 * Pow2(8 * (n - 1)) by {
        var k := 8 * (n - 1);
        assert 8 * n == k + 8;
        assert Pow2(k + 8) == 2 * Pow2(k + 7) == 4 * Pow2(k + 6) == 8 * Pow2(k + 5)
            == 16 * Pow2(k + 4) == 32 * Pow2(k + 3) == 64 * Pow2(k + 2)
            == 128 * Pow2(k + 1) == 256 * Pow2(k);
      }
    }
  }

  /** The unsigned value of a little-endian buffer: the sum of a[i] * 256^i. */
  function LittleEndian(a: seq<byte>): (r: nat)
    ensures r < Pow256(|a|)
  {
    if |a| == 0 then 0 else a[0] + 256 * LittleEndian(a[1..])
  }

  /** The n-byte little-endian encoding of v (its n low-order bytes). */
  function EncodeLE(v: nat, n: nat): (r: seq<byte>)
    ensures |r| == n
  {
    if n == 0 then [] else [v % 256] + EncodeLE(v / 256, n - 1)
  }

  /** Decoding an encoding gives back every value that fits in n bytes. */
  lemma {:induction false} DecodeEncodeLE(v: nat, n: nat)
    requires v < Pow256(n)
    ensures LittleEndian(EncodeLE(v, n)) == v
  {
    if n > 0 {
      DecodeEncodeLE(v / 256, n - 1);
      assert EncodeLE(v, n)[1..] == EncodeLE(v / 256, n - 1);
    }
  }

  /** Encoding a decoded buffer gives back the buffer. */
  lemma {:induction false} EncodeDecodeLE(a: seq<byte>)
    ensures EncodeLE(LittleEndian(a), |a|) == a
  {
    if |a| > 0 {
      EncodeDecodeLE(a[1..]);
      var v := LittleEndian(a);
      assert v % 256 == a[0] && v / 256 == LittleEndian(a[1..]);
    }
  }

  /** Two buffers of one width decode to the same value only if they are equal. */
  lemma LittleEndianInjective(a: seq<byte>, b: seq<byte>)
    requires |a| == |b| && LittleEndian(a) == LittleEndian(b)
    ensures a == b
  {
    EncodeDecodeLE(a);
    EncodeDecodeLE(b);
  }

  /** The worked values of the little-endian decoding. */
  lemma LittleEndianExamples()
    ensures LittleEndian([0x01, 0x00]) == 1
    ensures LittleEndian([0x00, 0x01]) == 256
    ensures LittleEndian([0xFF, 0xFF, 0xFF, 0xFF, 0xFF]) == Pow256(5) - 1 == 1099511627775
  {
    assert [0x01, 0x00][1..] == [0x00];
    assert [0x00, 0x01][1..] == [0x01];
    var f: seq<byte> := [0xFF, 0xFF, 0xFF, 0xFF, 0xFF];
    assert f[1..] == [0xFF, 0xFF, 0xFF, 0xFF];
    assert f[1..][1..] == [0xFF, 0xFF, 0xFF];
    assert f[1..][1..][1..] == [0xFF, 0xFF];
    assert f[1..][1..][1..][1..] == [0xFF];
  }

  /** A two-byte little-endian value: the first byte plus 256 times the second. */
  lemma LittleEndianPair(a: seq<byte>)
    requires |a| == 2
    ensures LittleEndian(a) == a[0] as int + 256 * a[1] as int
  {
    assert a[1..][1..] == [];
  }

  lemma LittleEndianTriple(a: seq<byte>)
    requires |a| == 3
    ensures LittleEndian(a) == a[0] as int + 256 * a[1] as int + 65536 * a[2] as int
  {
    LittleEndianPair(a[1..]);
  }

  /**
   * Python's s[lo:hi] for non-negative bounds (bin/user/brultech.py:490): the
   * elements from lo up to hi, cut off at the end of s, and empty when lo is
   * at or past the end or hi <= lo.
   */
  function Slice<T>(s: seq<T>, lo: nat, hi: nat): seq<T>
  {
    if |s| <= lo || hi <= lo then [] else s[lo .. if hi < |s| then hi else |s|]
  }

  /** Slicing what follows position off is slicing the whole sequence further along. */
  lemma SliceOfDrop<T>(s: seq<T>, off: nat, a: nat, m: nat)
    requires off + a + m <= |s|
    ensures s[off..][a .. a + m] == s[off + a .. off + a + m]
  {
  }

  /** Within bounds a Python slice is the Dafny subsequence; past the end it is truncated. */
  lemma SliceFacts<T>(s: seq<T>, lo: nat, hi: nat)
    ensures lo <= hi <= |s| ==> Slice(s, lo, hi) == s[lo..hi]
    ensures |s| <= lo || hi <= lo ==> Slice(s, lo, hi) == []
    ensures lo < hi && lo < |s| < hi ==> Slice(s, lo, hi) == s[lo..]
  {
  }
}
