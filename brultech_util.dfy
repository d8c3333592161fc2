/**
 * The packet utilities of the newer driver, bin/user/brultech.py: the
 * shift-and-add `unpack`, the big-endian `extract_short`, `extract_seq`,
 * the signed-magnitude `_mktemperature` and `_calc_secs`.
 */
module BrultechUtil {
  import opened Bytes
  import opened Packets
  import Counters

  /** unpack: walks the buffer from its last byte, shifting the sum left by 8 bits each time. */
  method Unpack(a: seq<byte>) returns (sum: nat)
    ensures sum == LittleEndian(a)
  {
    sum := 0;
    var i := |a|;
    while i > 0
      invariant 0 <= i <= |a|
      invariant sum == LittleEndian(a[i..])
    {
      i := i - 1;
      assert a[i..][1..] == a[i + 1..];
      sum := sum * 256;  // sum <<= 8
      sum := sum + a[i];
    }
    assert a[0..] == a;
  }

  /** extract_short: the first two bytes read most significant first. */
  function ExtractShort(buf: seq<byte>): (v: nat)
    requires |buf| >= 2
    ensures v == LittleEndian([buf[1], buf[0]]) && v < 65536
  {
    assert [buf[1], buf[0]][1..] == [buf[0]];
    (buf[0] as int) * 256 + buf[1]
  }

  /** The two bytes the device sends for a 16-bit value, most significant first. */
  function EncodeShort(v: nat): (b: seq<byte>)
    requires v < 65536
    ensures |b| == 2
  {
    [v / 256, v % 256]
  }

  lemma ExtractShortRoundTrip(v: nat, b: seq<byte>)
    requires v < 65536
    ensures ExtractShort(EncodeShort(v)) == v
    ensures |b| == 2 ==> EncodeShort(ExtractShort(b)) == b
  {
  }

  /** extract_seq: fills the dict tag % 1 .. tag % n one field at a time. */
  method ExtractSeq(buf: seq<byte>, n: nat, nbyte: nat, tag: Template) returns (results: Packet)
    ensures results == SeqFields(buf, n, nbyte, tag)
  {
    results := map[];
    for i := 0 to n
      invariant results == SeqFields(buf, i, nbyte, tag)
    {
      OffsetIsProduct(i, nbyte);
      var lo := i * nbyte;
      var x := Unpack(Slice(buf, lo, lo + nbyte));
      results := results[Indexed(tag, i + 1) := Int(x)];
      SeqFieldsStep(buf, i, nbyte, tag, x);
    }
  }

  /**
   * _mktemperature, in half-degrees: the low 15 bits of the little-endian
   * pair are the magnitude and bit 7 of the second byte is the sign (this is
   * sign-and-magnitude, not two's complement).  The Python value is 0.5 * t.
   * `(b[1] & 0x7f) << 8 | b[0]` is written with arithmetic here; lemma
   * TemperatureBits shows the two agree on bytes.
   */
  function MkTemperature(b: seq<byte>): (t: int)
    requires |b| >= 2
    ensures b[1] < 128 ==> t == 256 * (b[1] as int) + b[0]
    ensures b[1] >= 128 ==> t == -(256 * (b[1] as int - 128) + b[0])
  {
    var hi: int := b[1];
    var magnitude := (hi % 128) * 256 + b[0];
    if hi / 128 != 0 then -magnitude else magnitude
  }

  /** The bit operations of _mktemperature are the arithmetic of MkTemperature. */
  lemma TemperatureBits(b0: bv8, b1: bv8)
    ensures (((b1 & 0x7F) as bv16) << 8) | (b0 as bv16) == ((b1 % 128) as bv16) * 256 + (b0 as bv16)
    ensures (b1 >> 7 != 0) == (b1 / 128 != 0)
  {
  }

  /** The two bytes a sensor reading of t half-degrees is sent as. */
  function EncodeTemperature(t: int): (b: seq<byte>)
    requires -32768 < t < 32768
    ensures |b| == 2
  {
    var m := if t < 0 then -t else t;
    [m % 256, m / 256 + if t < 0 then 128 else 0]
  }

  /**
   * Every reading of magnitude below 2^15 half-degrees survives the round
   * trip, and the decoded value is negative only when the sign bit is set.
   */
  lemma MkTemperatureRoundTrip(t: int, b: seq<byte>)
    requires -32768 < t < 32768 && |b| >= 2
    ensures MkTemperature(EncodeTemperature(t)) == t
    ensures MkTemperature(b) < 0 ==> b[1] >= 128
    ensures -32768 < MkTemperature(b) < 32768
  {
  }

  /** The worked values: 0x64,0x00 is +50.0 degrees and 0x64,0x80 is -50.0 degrees. */
  lemma MkTemperatureExamples()
    ensures MkTemperature([0x64, 0x00]) == 100
    ensures MkTemperature([0x64, 0x80]) == -100
  {
  }

  /** _calc_secs: seconds elapsed between two packets, through one wraparound of the 3-byte counter. */
  function CalcSecs(oldpkt: Packet, newpkt: Packet): (ds: int)
    requires HasInt(oldpkt, Secs) && HasInt(newpkt, Secs)
    ensures var o, n := oldpkt[Secs].i, newpkt[Secs].i;
      && (o <= n ==> ds == n - o)
      && (n < o ==> ds == n - o + Counters.SEC_COUNTER_MAX)
      && (0 <= o < Counters.SEC_COUNTER_MAX && 0 <= n < Counters.SEC_COUNTER_MAX ==>
            && 0 <= ds < Counters.SEC_COUNTER_MAX
            && (ds == 0 <==> o == n)
            && (o + ds) % Counters.SEC_COUNTER_MAX == n)
  {
    var o, n := oldpkt[Secs].i, newpkt[Secs].i;
    if 0 <= o < Counters.SEC_COUNTER_MAX && 0 <= n < Counters.SEC_COUNTER_MAX then
      Counters.WrapDeltaModular(o, n, Counters.SEC_COUNTER_MAX);
      Counters.WrapDelta(o, n, Counters.SEC_COUNTER_MAX)
    else
      Counters.WrapDelta(o, n, Counters.SEC_COUNTER_MAX)
  }
}
