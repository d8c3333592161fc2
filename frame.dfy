/**
 * The integrity conditions every binary GEM packet must meet before any field
 * is read from it: mirrored header/footer markers, the one-byte checksum in the
 * last position and the packet identifier in byte 2.  Both driver revisions
 * test exactly these conditions; each raises its own exception kinds.
 */
module Frame {
  import opened Bytes

  /** Python's sum() over a bytearray. */
  function ByteSum(s: seq<byte>): (r: nat)
    ensures r <= 255 * |s|
  {
    if |s| == 0 then 0 else s[0] + ByteSum(s[1..])
  }

  /** Bytes 0,1 hold 0xFE,0xFF and the two bytes before the checksum hold 0xFF,0xFE. */
  predicate EndsOk(buf: seq<byte>)
    requires |buf| >= 3
  {
    buf[0] == buf[|buf| - 2] == 0xFE && buf[1] == buf[|buf| - 3] == 0xFF
  }

  /** The sum of all bytes but the last, taken modulo 256 (`& 0xff`), is the last byte. */
  predicate ChecksumOk(buf: seq<byte>)
    requires |buf| >= 1
  {
    ByteSum(buf[..|buf| - 1]) % 256 == buf[|buf| - 1]
  }

  predicate IdOk(buf: seq<byte>, packetId: int)
    requires |buf| >= 3
  {
    buf[2] == packetId
  }

  /** The body followed by its checksum byte, as the device sends it. */
  function Seal(body: seq<byte>): (buf: seq<byte>)
    ensures |buf| == |body| + 1 && buf[..|body|] == body
    ensures ChecksumOk(buf)
  {
    var buf := body + [ByteSum(body) % 256];
    assert buf[..|body|] == body;
    buf
  }

  /** A buffer passes the checksum test exactly when it is the sealed form of its body. */
  lemma ChecksumOkIffSealed(buf: seq<byte>)
    requires |buf| >= 1
    ensures ChecksumOk(buf) <==> buf == Seal(buf[..|buf| - 1])
  {
    var body := buf[..|buf| - 1];
    if ChecksumOk(buf) {
      assert buf == body + [buf[|buf| - 1]];
    }
  }

  /** Replacing one byte changes the sum by exactly the difference of the two values. */
  lemma {:induction false} ByteSumUpdate(s: seq<byte>, k: nat, v: byte)
    requires k < |s|
    ensures ByteSum(s[k := v]) == ByteSum(s) - s[k] + v
  {
    if k == 0 {
      assert s[k := v][1..] == s[1..];
    } else {
      ByteSumUpdate(s[1..], k - 1, v);
      assert s[k := v][1..] == s[1..][k - 1 := v];
    }
  }

  /**
   * A buffer that passes the checksum test fails it once any single byte
   * other than the checksum itself is replaced by a different value.
   */
  lemma ChecksumDetectsSingleByteChange(buf: seq<byte>, k: nat, v: byte)
    requires |buf| >= 1 && ChecksumOk(buf)
    requires k < |buf| - 1 && v != buf[k]
    ensures !ChecksumOk(buf[k := v])
  {
    var n := |buf|;
    var body := buf[..n - 1];
    assert buf[k := v][..n - 1] == body[k := v];
    ByteSumUpdate(body, k, v);
    var d := v - buf[k];
    assert -256 < d < 256 && d != 0;
    assert (ByteSum(body) + d) % 256 != ByteSum(body) % 256;
  }
}
