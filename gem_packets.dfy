/**
 * The packet classes of the older driver, bin/weepwr/gem_driver.py: the
 * integrity checks and `get_buffer_from` of GEMBase, and the decoders of
 * GEM48PBinary (619 bytes, format 5) and GEM48PDBinary (625 bytes, format 4,
 * with the embedded creation time).
 */
module GemPackets {
  import opened Wrappers
  import opened Bytes
  import opened Packets
  import opened Weepwr
  import Frame
  import Calendar
  import BrultechUtil
  import GemUtil
  import BrultechPackets
  import Decimal

  datatype PacketClass = GEM48PBinary | GEM48PDBinary

  /** packet_ID, the same for both classes. */
  const PACKET_ID: int := 5

  /** NUM_CHAN: 48 channels, of which 32 are usable. */
  const NUM_CHAN: nat := 32

  function PacketLength(c: PacketClass): nat
  {
    match c
    case GEM48PBinary => 619
    case GEM48PDBinary => 625
  }

  /** The number sent in the ^^^SYSPKT command that selects the packet type. */
  function PacketFormat(c: PacketClass): nat
  {
    match c
    case GEM48PBinary => 5
    case GEM48PDBinary => 4
  }

  /** _check_ends */
  function CheckEnds(buf: seq<byte>): (r: Outcome<GemError>)
    requires |buf| >= 3
    ensures r.Pass? <==> Frame.EndsOk(buf)
    ensures r.Fail? ==> r.error == EndError(BadHeaderOrFooter)
  {
    if !(buf[0] == buf[|buf| - 2] == 0xFE) || !(buf[1] == buf[|buf| - 3] == 0xFF) then
      Fail(EndError(BadHeaderOrFooter))
    else
      Pass
  }

  /** _check_checksum */
  function CheckChecksum(buf: seq<byte>): (r: Outcome<GemError>)
    requires |buf| >= 1
    ensures r.Pass? <==> Frame.ChecksumOk(buf)
    ensures r.Fail? ==> r.error == CheckSumError
  {
    var chksum := Frame.ByteSum(buf[..|buf| - 1]);
    if chksum % 256 != buf[|buf| - 1] then Fail(CheckSumError) else Pass
  }

  /** _check_ID */
  function CheckId(buf: seq<byte>): (r: Outcome<GemError>)
    requires |buf| >= 3
    ensures r.Pass? <==> Frame.IdOk(buf, PACKET_ID)
    ensures r.Fail? ==> r.error == EndError(BadPacketId(buf[2], PACKET_ID))
  {
    if PACKET_ID != buf[2] then Fail(EndError(BadPacketId(buf[2], PACKET_ID))) else Pass
  }

  /**
   * get_buffer_from: the bytes the source's read(packet_length) returned (or
   * the error it raised), then the end, checksum and id checks in that order.
   */
  function GetBufferFrom(c: PacketClass, read: Result<seq<byte>, GemError>): (r: Result<seq<byte>, GemError>)
    requires read.Success? ==> |read.value| >= 3
    ensures read.Failure? ==> r == Failure(read.error)
    ensures read.Success? ==> var buf := read.value;
      && (r.Success? <==> Frame.EndsOk(buf) && Frame.ChecksumOk(buf) && Frame.IdOk(buf, PACKET_ID))
      && (r.Success? ==> r.value == buf)
      && (!Frame.EndsOk(buf) ==> r == Failure(EndError(BadHeaderOrFooter)))
      && (Frame.EndsOk(buf) && !Frame.ChecksumOk(buf) ==> r == Failure(CheckSumError))
      && (Frame.EndsOk(buf) && Frame.ChecksumOk(buf) && !Frame.IdOk(buf, PACKET_ID) ==>
            r == Failure(EndError(BadPacketId(buf[2], PACKET_ID))))
  {
    if read.Failure? then Failure(read.error)
    else
      var buf := read.value;
      var ends := CheckEnds(buf);
      if ends.Fail? then Failure(ends.error)
      else
        var sum := CheckChecksum(buf);
        if sum.Fail? then Failure(sum.error)
        else
          var id := CheckId(buf);
          if id.Fail? then Failure(id.error) else Success(buf)
  }

  /** A buffer that passes get_buffer_from's checks fails them once any byte but the checksum changes. */
  lemma CorruptionRejected(c: PacketClass, buf: seq<byte>, k: nat, v: byte)
    requires |buf| == PacketLength(c) && GetBufferFrom(c, Success(buf)).Success?
    requires k < |buf| - 1 && v != buf[k]
    ensures GetBufferFrom(c, Success(buf[k := v])).Failure?
  {
    Frame.ChecksumDetectsSingleByteChange(buf, k, v);
  }

  // ---- the GEM48PBinary decoder ----

  /** The literal dict that opens extract_packet_from, with the volts entry. */
  function GemHeader(buf: seq<byte>, dateTime: int): Packet
    requires |buf| >= 619
  {
    map[PacketId := Int(PACKET_ID),
        DateTime := Int(dateTime),
        Volts := Ratio(BrultechUtil.ExtractShort(buf[3..5]), 10)]
  }

  /** The serial number, unit id, formatted serial and seconds counter. */
  function GemScalars(buf: seq<byte>): Packet
    requires |buf| >= 619
  {
    var serNo := BrultechUtil.ExtractShort(buf[485..487]);
    map[SerNo := Int(serNo),
        UnitId := Int(buf[488]),
        Serial := Text(SerialText(buf[488], serNo)),
        Secs := Int(LittleEndian(buf[585..588]))]
  }

  /** The dict GEM48PBinary.extract_packet_from returns, in the order it is assembled. */
  function GemFields(buf: seq<byte>, dateTime: int): Packet
    requires |buf| >= 619
  {
    GemHeader(buf, dateTime)
      + SeqFields(buf[5..], 32, 5, ChAws)
      + SeqFields(buf[245..], 32, 5, ChPws)
      + GemScalars(buf)
      + SeqFields(buf[588..], 4, 3, P)
      + SeqFields(buf[600..], 8, 2, T)
  }

  lemma GemHeaderValues(buf: seq<byte>, dateTime: int, k: Key)
    requires |buf| >= 619
    ensures k in GemHeader(buf, dateTime) <==> k in {PacketId, DateTime, Volts}
    ensures var h := GemHeader(buf, dateTime);
      && h[PacketId] == Int(PACKET_ID)
      && h[DateTime] == Int(dateTime)
      && h[Volts] == Ratio(256 * buf[3] as int + buf[4], 10)
  {
  }

  lemma GemScalarKeys(buf: seq<byte>, k: Key)
    requires |buf| >= 619
    ensures k in GemScalars(buf) <==> k in {SerNo, UnitId, Serial, Secs}
  {
  }

  lemma GemScalarValues(buf: seq<byte>)
    requires |buf| >= 619
    ensures var s := GemScalars(buf);
      && s[SerNo] == Int(256 * buf[485] as int + buf[486])
      && s[UnitId] == Int(buf[488])
      && s[Secs] == Int(buf[585] as int + 256 * buf[586] as int + 65536 * buf[587] as int)
  {
    LittleEndianTriple(buf[585..588]);
  }

  lemma GemScalarSerial(buf: seq<byte>)
    requires |buf| >= 619
    ensures GemScalars(buf)[Serial] == Text(SerialText(buf[488], 256 * buf[485] as int + buf[486]))
  {
    assert BrultechUtil.ExtractShort(buf[485..487]) == 256 * buf[485] as int + buf[486];
  }

  /**
   * The parts of a GEM48PBinary packet have disjoint keys, so each entry of
   * the merged dict is the entry of the one part that holds its key.
   */
  lemma GemLookup(buf: seq<byte>, dateTime: int, k: Key)
    requires |buf| >= 619
    ensures var p, h, a, b, s, u, t := GemFields(buf, dateTime), GemHeader(buf, dateTime),
              SeqFields(buf[5..], 32, 5, ChAws), SeqFields(buf[245..], 32, 5, ChPws),
              GemScalars(buf), SeqFields(buf[588..], 4, 3, P), SeqFields(buf[600..], 8, 2, T);
      && (k in p <==> k in h || k in a || k in b || k in s || k in u || k in t)
      && (k in h ==> p[k] == h[k])
      && (k in a ==> p[k] == a[k])
      && (k in b ==> p[k] == b[k])
      && (k in s ==> p[k] == s[k])
      && (k in u ==> p[k] == u[k])
      && (k in t ==> p[k] == t[k])
  {
    GemHeaderValues(buf, dateTime, k);
    GemScalarKeys(buf, k);
    SeqFieldsKeyOf(buf[5..], 32, 5, ChAws, k);
    SeqFieldsKeyOf(buf[245..], 32, 5, ChPws, k);
    SeqFieldsKeyOf(buf[588..], 4, 3, P, k);
    SeqFieldsKeyOf(buf[600..], 8, 2, T, k);
    MergeLookup(GemHeader(buf, dateTime), SeqFields(buf[5..], 32, 5, ChAws), SeqFields(buf[245..], 32, 5, ChPws),
                GemScalars(buf), SeqFields(buf[588..], 4, 3, P), SeqFields(buf[600..], 8, 2, T), k);
  }

  /**
   * The scalar fields of a GEM48PBinary packet: packet_id 5, volts in tenths
   * from the big-endian short at bytes 3-4, ser_no the big-endian short at
   * 485-486, unit_id byte 488, secs the 3-byte little-endian counter at 585-587.
   */
  lemma GemScalarFields(buf: seq<byte>, dateTime: int)
    requires |buf| >= 619
    ensures var p := GemFields(buf, dateTime);
      && PacketId in p && p[PacketId] == Int(PACKET_ID)
      && DateTime in p && p[DateTime] == Int(dateTime)
      && Volts in p && p[Volts] == Ratio(256 * buf[3] as int + buf[4], 10)
      && SerNo in p && p[SerNo] == Int(256 * buf[485] as int + buf[486])
      && UnitId in p && p[UnitId] == Int(buf[488])
      && Secs in p && p[Secs] == Int(buf[585] as int + 256 * buf[586] as int + 65536 * buf[587] as int)
  {
    GemHeaderValues(buf, dateTime, PacketId);
    GemScalarValues(buf);
    GemLookup(buf, dateTime, PacketId);
    GemLookup(buf, dateTime, DateTime);
    GemLookup(buf, dateTime, Volts);
    GemLookup(buf, dateTime, SerNo);
    GemLookup(buf, dateTime, UnitId);
    GemLookup(buf, dateTime, Secs);
  }

  /** The serial is '%03d%05d' % (unit_id, ser_no): eight digits that read back unit_id and ser_no. */
  lemma GemSerial(buf: seq<byte>, dateTime: int)
    requires |buf| >= 619
    ensures var p := GemFields(buf, dateTime);
      && Serial in p && p[Serial].Text?
      && var s := p[Serial].s;
      && |s| == 8 && Decimal.IsDigits(s)
      && Decimal.Value(s[..3]) == buf[488]
      && Decimal.Value(s[3..]) == 256 * buf[485] as int + buf[486]
  {
    GemScalarSerial(buf);
    GemLookup(buf, dateTime, Serial);
    SerialTextLayout(buf[488], 256 * buf[485] as int + buf[486]);
  }

  /**
   * Channel j (1..32): 'ch%d_aws' is the 5-byte little-endian counter at
   * bytes 5j..5j+4 and 'ch%d_pws' the one at 240+5j..244+5j.
   */
  lemma GemEnergies(buf: seq<byte>, dateTime: int, j: nat)
    requires |buf| >= 619 && 1 <= j <= 32
    ensures var p := GemFields(buf, dateTime);
      && Indexed(ChAws, j) in p && p[Indexed(ChAws, j)] == Int(LittleEndian(buf[5 + (j - 1) * 5 .. 5 + (j - 1) * 5 + 5]))
      && Indexed(ChPws, j) in p && p[Indexed(ChPws, j)] == Int(LittleEndian(buf[245 + (j - 1) * 5 .. 245 + (j - 1) * 5 + 5]))
  {
    GemCounterAt(buf, dateTime, ChAws, 5, j);
    GemCounterAt(buf, dateTime, ChPws, 245, j);
  }

  /** One of the two 5-byte counter blocks: ch%d_aws from offset 5 or ch%d_pws from offset 245. */
  lemma GemCounterAt(buf: seq<byte>, dateTime: int, tag: Template, off: nat, j: nat)
    requires |buf| >= 619 && 1 <= j <= 32
    requires (tag == ChAws && off == 5) || (tag == ChPws && off == 245)
    ensures var p := GemFields(buf, dateTime);
      Indexed(tag, j) in p && p[Indexed(tag, j)] == Int(LittleEndian(buf[off + (j - 1) * 5 .. off + (j - 1) * 5 + 5]))
  {
    OffsetIsProduct(32, 5);
    OffsetIsProduct(j - 1, 5);
    SeqFieldsAt(buf, off, 32, 5, tag, j, off + (j - 1) * 5);
    var k, block := Indexed(tag, j), SeqFields(buf[off..], 32, 5, tag);
    assert k in GemFields(buf, dateTime) && GemFields(buf, dateTime)[k] == block[k] by {
      GemLookup(buf, dateTime, k);
    }
  }

  /** Pulse counter j (1..4) is the 3-byte little-endian value at bytes 585+3j..587+3j. */
  lemma GemPulses(buf: seq<byte>, dateTime: int, j: nat)
    requires |buf| >= 619 && 1 <= j <= 4
    ensures var p := GemFields(buf, dateTime);
      Indexed(P, j) in p && p[Indexed(P, j)] == Int(LittleEndian(buf[588 + (j - 1) * 3 .. 588 + (j - 1) * 3 + 3]))
  {
    GemLookup(buf, dateTime, Indexed(P, j));
    OffsetIsProduct(4, 3);
    OffsetIsProduct(j - 1, 3);
    SeqFieldsAt(buf, 588, 4, 3, P, j, 588 + (j - 1) * 3);
  }

  /**
   * Temperature j (1..8) is kept raw: the unsigned little-endian value of
   * bytes 598+2j and 599+2j, with no sign bit and no range filter.
   */
  lemma GemTemperatures(buf: seq<byte>, dateTime: int, j: nat)
    requires |buf| >= 619 && 1 <= j <= 8
    ensures var p := GemFields(buf, dateTime);
      Indexed(T, j) in p && p[Indexed(T, j)] == Int(LittleEndian(buf[600 + (j - 1) * 2 .. 600 + (j - 1) * 2 + 2]))
    ensures var lo := 600 + (j - 1) * 2;
      LittleEndian(buf[lo .. lo + 2]) == buf[lo] as int + 256 * buf[lo + 1] as int
  {
    GemRawTemperatureAt(buf, dateTime, j);
    LittleEndianPair(buf[600 + (j - 1) * 2 .. 600 + (j - 1) * 2 + 2]);
  }

  /** t%d is the j-th 2-byte field from offset 600. */
  lemma GemRawTemperatureAt(buf: seq<byte>, dateTime: int, j: nat)
    requires |buf| >= 619 && 1 <= j <= 8
    ensures var p := GemFields(buf, dateTime);
      Indexed(T, j) in p && p[Indexed(T, j)] == Int(LittleEndian(buf[600 + (j - 1) * 2 .. 600 + (j - 1) * 2 + 2]))
  {
    GemLookup(buf, dateTime, Indexed(T, j));
    OffsetIsProduct(8, 2);
    OffsetIsProduct(j - 1, 2);
    SeqFieldsAt(buf, 600, 8, 2, T, j, 600 + (j - 1) * 2);
  }

  /** A GEM48PBinary packet holds these keys and no others. */
  lemma GemKeys(buf: seq<byte>, dateTime: int, k: Key)
    requires |buf| >= 619
    ensures k in GemFields(buf, dateTime) <==>
      || k in {PacketId, DateTime, Volts, SerNo, UnitId, Serial, Secs}
      || (k.Indexed? && (k.template == ChAws || k.template == ChPws) && 1 <= k.index <= 32)
      || (k.Indexed? && k.template == P && 1 <= k.index <= 4)
      || (k.Indexed? && k.template == T && 1 <= k.index <= 8)
  {
    GemLookup(buf, dateTime, k);
    GemHeaderValues(buf, dateTime, k);
    GemScalarKeys(buf, k);
    SeqFieldsKeyOf(buf[5..], 32, 5, ChAws, k);
    SeqFieldsKeyOf(buf[245..], 32, 5, ChPws, k);
    SeqFieldsKeyOf(buf[588..], 4, 3, P, k);
    SeqFieldsKeyOf(buf[600..], 8, 2, T, k);
  }

  /** GEM48PBinary.extract_packet_from: a dict filled field by field and field group by field group. */
  method ExtractPacketFrom(buf: seq<byte>, dateTime: int) returns (packet: Packet)
    requires |buf| >= 619
    ensures packet == GemFields(buf, dateTime)
  {
    packet := map[PacketId := Int(PACKET_ID), DateTime := Int(dateTime)];
    packet := packet[Volts := Ratio(BrultechUtil.ExtractShort(buf[3..5]), 10)];
    assert packet == GemHeader(buf, dateTime);
    var aws := GemUtil.ExtractSeq(buf[5..], 32, 5, ChAws);
    packet := packet + aws;
    var pws := GemUtil.ExtractSeq(buf[245..], 32, 5, ChPws);
    packet := packet + pws;
    var serNo := BrultechUtil.ExtractShort(buf[485..487]);
    var unitId := buf[488];
    var secs := GemUtil.Unpack(buf[585..588]);
    var scalars := map[SerNo := Int(serNo), UnitId := Int(unitId)];
    scalars := scalars[Serial := Text(SerialText(unitId, serNo))];
    scalars := scalars[Secs := Int(secs)];
    assert scalars == GemScalars(buf);
    packet := packet + scalars;
    var pulse := GemUtil.ExtractSeq(buf[588..], 4, 3, P);
    packet := packet + pulse;
    var temperature := GemUtil.ExtractSeq(buf[600..], 8, 2, T);
    packet := packet + temperature;
  }

  // ---- the GEM48PDBinary decoder and get_packet_from ----

  /** int(calendar.timegm((Y+2000, M, D, h, m, s, 0, 0, -1))) of bytes 616..621, or timegm's ValueError. */
  function GemTime(buf: seq<byte>): (r: Result<int, GemError>)
    requires |buf| >= 625
    ensures r.Failure? <==> !(1 <= buf[617] <= 12)
    ensures r.Failure? ==> r.error == CalendarError(buf[617])
    ensures r.Success? ==> r.value == Calendar.EpochSeconds(buf[616] as int + 2000, buf[617], buf[618], buf[619], buf[620], buf[621])
  {
    var year, month, day, hour, minute, second := buf[616], buf[617], buf[618], buf[619], buf[620], buf[621];
    if 1 <= month <= 12 then
      Calendar.TimegmCountsSeconds(year as int + 2000, month, day, hour, minute, second);
      Success(Calendar.Timegm(year as int + 2000, month, day, hour, minute, second))
    else
      Failure(CalendarError(month))
  }

  /** What GEM48PDBinary.extract_packet_from returns (or raises). */
  function GemTimeFields(buf: seq<byte>, dateTime: int): Result<Packet, GemError>
    requires |buf| >= 625
  {
    var time := GemTime(buf);
    if time.Failure? then Failure(time.error)
    else Success(GemFields(buf, dateTime)[TimeCreated := Int(time.value)])
  }

  /** GEM48PDBinary.extract_packet_from: the GEM48PBinary dict plus 'time_created'. */
  method ExtractTimePacketFrom(buf: seq<byte>, dateTime: int) returns (r: Result<Packet, GemError>)
    requires |buf| >= 625
    ensures r == GemTimeFields(buf, dateTime)
  {
    var packet := ExtractPacketFrom(buf, dateTime);
    var time := GemTime(buf);
    if time.Failure? {
      return Failure(time.error);
    }
    packet := packet[TimeCreated := Int(time.value)];
    return Success(packet);
  }

  /** What extract_packet_from of the packet class returns (or raises) for a full-length buffer. */
  function Decoded(c: PacketClass, buf: seq<byte>, dateTime: int): Result<Packet, GemError>
    requires |buf| == PacketLength(c)
  {
    match c
    case GEM48PBinary => Success(GemFields(buf, dateTime))
    case GEM48PDBinary => GemTimeFields(buf, dateTime)
  }

  /**
   * get_packet_from: get_buffer_from on what the source read, then
   * extract_packet_from.  No packet comes out of a buffer that fails a check.
   */
  method GetPacketFrom(c: PacketClass, read: Result<seq<byte>, GemError>, dateTime: int) returns (r: Result<Packet, GemError>)
    requires read.Success? ==> |read.value| >= 3
    requires GetBufferFrom(c, read).Success? ==> |read.value| == PacketLength(c)
    ensures GetBufferFrom(c, read).Failure? ==> r == Failure(GetBufferFrom(c, read).error)
    ensures GetBufferFrom(c, read).Success? ==> r == Decoded(c, read.value, dateTime)
    ensures r.Success? <==>
              && read.Success?
              && Frame.EndsOk(read.value) && Frame.ChecksumOk(read.value) && Frame.IdOk(read.value, PACKET_ID)
              && (c == GEM48PDBinary ==> 1 <= read.value[617] <= 12)
  {
    var buffer := GetBufferFrom(c, read);
    if buffer.Failure? {
      return Failure(buffer.error);
    }
    var buf := buffer.value;
    match c {
      case GEM48PBinary =>
        var packet := ExtractPacketFrom(buf, dateTime);
        r := Success(packet);
      case GEM48PDBinary =>
        r := ExtractTimePacketFrom(buf, dateTime);
    }
  }

  /**
   * The two revisions decode the same buffer alike where they share a field:
   * 'ch%d_aws' and 'ch%d_pws' here are 'ch%d_a_energy' and 'ch%d_p_energy'
   * in bin/user/brultech.py.
   */
  lemma RevisionsAgreeOnEnergy(buf: seq<byte>, dateTime: int, j: nat)
    requires |buf| >= 619 && 1 <= j <= 32
    ensures var g, n := GemFields(buf, dateTime), BrultechPackets.NetFields(buf, dateTime);
      && Indexed(ChAws, j) in g && Indexed(ChAEnergy, j) in n && g[Indexed(ChAws, j)] == n[Indexed(ChAEnergy, j)]
      && Indexed(ChPws, j) in g && Indexed(ChPEnergy, j) in n && g[Indexed(ChPws, j)] == n[Indexed(ChPEnergy, j)]
  {
    GemEnergies(buf, dateTime, j);
    BrultechPackets.NetEnergies(buf, dateTime, j);
  }

  /** ... and volts, ser_no, unit_id, serial and secs are the same in both. */
  lemma RevisionsAgreeOnScalars(buf: seq<byte>, dateTime: int, k: Key)
    requires |buf| >= 619 && k in {Volts, SerNo, UnitId, Serial, Secs}
    ensures var g, n := GemFields(buf, dateTime), BrultechPackets.NetFields(buf, dateTime);
      k in g && k in n && g[k] == n[k]
  {
    GemScalarFields(buf, dateTime);
    BrultechPackets.NetScalars(buf, dateTime);
    if k == Serial {
      GemScalarSerial(buf);
      GemLookup(buf, dateTime, Serial);
      BrultechPackets.NetLookup(buf, dateTime, Serial);
    }
  }
}
