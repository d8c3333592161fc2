/**
 * The packet classes of the newer driver, bin/user/brultech.py: the integrity
 * checks of BTBase, `get_packet`, and the fixed-offset decoders of the GEM
 * BIN48-NET (format 5) and BIN48-NET-TIME (format 4) packets.
 */
module BrultechPackets {
  import opened Wrappers
  import opened Bytes
  import opened Packets
  import Frame
  import Calendar
  import BrultechUtil
  import Decimal

  /** weewx.METRICWX, the unit system tag every packet carries. */
  const METRICWX: int := 0x11

  /** Byte 2 of both packet formats. */
  const PACKET_ID: int := 5

  datatype PacketType = GEMBin48Net | GEMBin48NetTime

  function PacketLength(t: PacketType): nat
  {
    match t
    case GEMBin48Net => 619
    case GEMBin48NetTime => 625
  }

  /** The number sent in the ^^^SYSPKT command that selects the packet type. */
  function PacketFormat(t: PacketType): nat
  {
    match t
    case GEMBin48Net => 5
    case GEMBin48NetTime => 4
  }

  /**
   * What get_packet can raise: weewx.WeeWxIOError for the three integrity
   * checks, and the ValueError calendar.timegm raises for a month outside 1..12.
   */
  datatype PacketError =
    | BadHeaderOrFooter
    | BadChecksum
    | BadPacketId(got: int, expected: int)
    | MonthOutOfRange(month: int)

  /** _check_ends */
  function CheckEnds(buf: seq<byte>): (r: Outcome<PacketError>)
    requires |buf| >= 3
    ensures r.Pass? <==> Frame.EndsOk(buf)
    ensures r.Fail? ==> r.error == BadHeaderOrFooter
  {
    if !(buf[0] == buf[|buf| - 2] == 0xFE) || !(buf[1] == buf[|buf| - 3] == 0xFF) then
      Fail(BadHeaderOrFooter)
    else
      Pass
  }

  /** _check_checksum */
  function CheckChecksum(buf: seq<byte>): (r: Outcome<PacketError>)
    requires |buf| >= 1
    ensures r.Pass? <==> Frame.ChecksumOk(buf)
    ensures r.Fail? ==> r.error == BadChecksum
  {
    var chksum := Frame.ByteSum(buf[..|buf| - 1]);
    if chksum % 256 != buf[|buf| - 1] then Fail(BadChecksum) else Pass
  }

  /** _check_ID */
  function CheckId(buf: seq<byte>): (r: Outcome<PacketError>)
    requires |buf| >= 3
    ensures r.Pass? <==> Frame.IdOk(buf, PACKET_ID)
    ensures r.Fail? ==> r.error == BadPacketId(buf[2], PACKET_ID)
  {
    if PACKET_ID != buf[2] then Fail(BadPacketId(buf[2], PACKET_ID)) else Pass
  }

  /** The three checks of get_packet, in order; the first one that fails decides the error. */
  function Check(buf: seq<byte>): (r: Outcome<PacketError>)
    requires |buf| >= 3
    ensures r.Pass? <==> Frame.EndsOk(buf) && Frame.ChecksumOk(buf) && Frame.IdOk(buf, PACKET_ID)
    ensures !Frame.EndsOk(buf) ==> r == Fail(BadHeaderOrFooter)
    ensures Frame.EndsOk(buf) && !Frame.ChecksumOk(buf) ==> r == Fail(BadChecksum)
    ensures Frame.EndsOk(buf) && Frame.ChecksumOk(buf) && !Frame.IdOk(buf, PACKET_ID) ==>
              r == Fail(BadPacketId(buf[2], PACKET_ID))
  {
    var ends := CheckEnds(buf);
    if ends.Fail? then ends
    else
      var sum := CheckChecksum(buf);
      if sum.Fail? then sum
      else CheckId(buf)
  }

  /**
   * A body with the markers and the packet id in place, sealed with its
   * checksum byte, passes every check.
   */
  lemma SealedPasses(body: seq<byte>)
    requires |body| >= 5
    requires body[0] == 0xFE && body[1] == 0xFF && body[2] == PACKET_ID
    requires body[|body| - 2] == 0xFF && body[|body| - 1] == 0xFE
    ensures Check(Frame.Seal(body)) == Pass
  {
    var buf := Frame.Seal(body);
    assert buf[..|body|] == body;
    assert buf[0] == body[0] && buf[1] == body[1] && buf[2] == body[2];
    assert buf[|buf| - 2] == body[|body| - 1] && buf[|buf| - 3] == body[|body| - 2];
  }

  /** Once a buffer passes the checks, changing any single byte but the checksum makes it fail. */
  lemma CorruptionRejected(buf: seq<byte>, k: nat, v: byte)
    requires |buf| >= 3 && Check(buf) == Pass
    requires k < |buf| - 1 && v != buf[k]
    ensures Check(buf[k := v]) != Pass
  {
    Frame.ChecksumDetectsSingleByteChange(buf, k, v);
  }

  // ---- the BIN48-NET decoder ----

  /** The scalar fields of the literal dict that opens _extract_packet_from. */
  function Header(buf: seq<byte>, dateTime: int): Packet
    requires |buf| >= 619
  {
    map[DateTime := Int(dateTime),
        UsUnits := Int(METRICWX),
        Volts := Ratio(BrultechUtil.ExtractShort(buf[3..5]), 10),
        SerNo := Int(BrultechUtil.ExtractShort(buf[485..487])),
        UnitId := Int(buf[488]),
        Secs := Int(LittleEndian(buf[585..588]))]
  }

  /** The keys of the header. */
  lemma HeaderKeys(buf: seq<byte>, dateTime: int, k: Key)
    requires |buf| >= 619
    ensures k in Header(buf, dateTime) <==> k in {DateTime, UsUnits, Volts, SerNo, UnitId, Secs}
  {
  }

  /** The values of the header, byte by byte. */
  lemma HeaderValues(buf: seq<byte>, dateTime: int)
    requires |buf| >= 619
    ensures var h := Header(buf, dateTime);
      && h[DateTime] == Int(dateTime)
      && h[UsUnits] == Int(METRICWX)
      && h[Volts] == Ratio(256 * buf[3] as int + buf[4], 10)
      && h[SerNo] == Int(256 * buf[485] as int + buf[486])
      && h[UnitId] == Int(buf[488])
      && h[Secs] == Int(buf[585] as int + 256 * buf[586] as int + 65536 * buf[587] as int)
  {
    LittleEndianTriple(buf[585..588]);
  }

  /** The half-degree reading of temperature sensor i (from 0), at bytes 600+2i and 601+2i. */
  function TemperatureAt(buf: seq<byte>, i: nat): int
    requires 600 + 2 * i + 2 <= |buf|
  {
    BrultechUtil.MkTemperature(buf[600 + 2 * i..])
  }

  /** A reading is kept when abs(0.5 * t) <= 255, that is abs(t) <= 510 half-degrees. */
  predicate InRange(t: int)
  {
    -510 <= t <= 510
  }

  /** The 't%d_temperature' entries of the first n sensors that are in range, in degrees (t / 2). */
  function Temperatures(buf: seq<byte>, n: nat): Packet
    requires 600 + 2 * n <= |buf|
  {
    if n == 0 then map[]
    else
      var t := TemperatureAt(buf, n - 1);
      if InRange(t) then Temperatures(buf, n - 1)[Indexed(TTemperature, n) := Ratio(t, 2)]
      else Temperatures(buf, n - 1)
  }

  /** The dict GEMBin48Net._extract_packet_from returns, in the order it is assembled. */
  function NetFields(buf: seq<byte>, dateTime: int): Packet
    requires |buf| >= 619
  {
    Header(buf, dateTime)
      + SeqFields(buf[5..], 32, 5, ChAEnergy)
      + SeqFields(buf[245..], 32, 5, ChPEnergy)
      + SerialEntry(buf)
      + SeqFields(buf[588..], 4, 3, PCount)
      + Temperatures(buf, 8)
  }

  /** Sensor j (from 1) has an entry exactly when its reading is in range, and the entry is t / 2 degrees. */
  lemma {:induction false} TemperaturesEntry(buf: seq<byte>, n: nat, k: Key)
    requires 600 + 2 * n <= |buf|
    ensures k in Temperatures(buf, n) <==>
              k.Indexed? && k.template == TTemperature && 1 <= k.index <= n && InRange(TemperatureAt(buf, k.index - 1))
    ensures k in Temperatures(buf, n) ==> Temperatures(buf, n)[k] == Ratio(TemperatureAt(buf, k.index - 1), 2)
  {
    if n > 0 {
      TemperaturesEntry(buf, n - 1, k);
    }
  }

  /** The serial entry of a BIN48-NET packet. */
  function SerialEntry(buf: seq<byte>): Packet
    requires |buf| >= 619
  {
    map[Serial := Text(SerialText(buf[488], BrultechUtil.ExtractShort(buf[485..487])))]
  }

  /**
   * The parts of a BIN48-NET packet have disjoint keys, so each entry of the
   * merged dict is the entry of the one part that holds its key.
   */
  lemma NetLookup(buf: seq<byte>, dateTime: int, k: Key)
    requires |buf| >= 619
    ensures var p, h, a, b, s, u, t := NetFields(buf, dateTime), Header(buf, dateTime),
              SeqFields(buf[5..], 32, 5, ChAEnergy), SeqFields(buf[245..], 32, 5, ChPEnergy),
              SerialEntry(buf), SeqFields(buf[588..], 4, 3, PCount), Temperatures(buf, 8);
      && (k in p <==> k in h || k in a || k in b || k in s || k in u || k in t)
      && (k in h ==> p[k] == h[k])
      && (k in a ==> p[k] == a[k])
      && (k in b ==> p[k] == b[k])
      && (k in s ==> p[k] == s[k])
      && (k in u ==> p[k] == u[k])
      && (k in t ==> p[k] == t[k])
  {
    HeaderKeys(buf, dateTime, k);
    SeqFieldsKeyOf(buf[5..], 32, 5, ChAEnergy, k);
    SeqFieldsKeyOf(buf[245..], 32, 5, ChPEnergy, k);
    SeqFieldsKeyOf(buf[588..], 4, 3, PCount, k);
    TemperaturesEntry(buf, 8, k);
    MergeLookup(Header(buf, dateTime), SeqFields(buf[5..], 32, 5, ChAEnergy), SeqFields(buf[245..], 32, 5, ChPEnergy),
                SerialEntry(buf), SeqFields(buf[588..], 4, 3, PCount), Temperatures(buf, 8), k);
  }

  /**
   * The scalar fields of a BIN48-NET packet: volts in tenths from the
   * big-endian short at bytes 3-4, ser_no the big-endian short at 485-486,
   * unit_id byte 488, secs the 3-byte little-endian counter at 585-587, and
   * serial the eight digits of '%03d%05d' % (unit_id, ser_no).
   */
  lemma NetScalars(buf: seq<byte>, dateTime: int)
    requires |buf| >= 619
    ensures var p := NetFields(buf, dateTime);
      && DateTime in p && p[DateTime] == Int(dateTime)
      && UsUnits in p && p[UsUnits] == Int(METRICWX)
      && Volts in p && p[Volts] == Ratio(256 * buf[3] as int + buf[4], 10)
      && SerNo in p && p[SerNo] == Int(256 * buf[485] as int + buf[486])
      && UnitId in p && p[UnitId] == Int(buf[488])
      && Secs in p && p[Secs] == Int(buf[585] as int + 256 * buf[586] as int + 65536 * buf[587] as int)
  {
    HeaderValues(buf, dateTime);
    NetLookup(buf, dateTime, DateTime);
    NetLookup(buf, dateTime, UsUnits);
    NetLookup(buf, dateTime, Volts);
    NetLookup(buf, dateTime, SerNo);
    NetLookup(buf, dateTime, UnitId);
    NetLookup(buf, dateTime, Secs);
  }

  /**
   * The serial of a BIN48-NET packet is '%03d%05d' % (unit_id, ser_no): always
   * eight digits, the first three reading back unit_id and the last five ser_no.
   */
  lemma NetSerial(buf: seq<byte>, dateTime: int)
    requires |buf| >= 619
    ensures var p := NetFields(buf, dateTime);
      && Serial in p && p[Serial].Text?
      && var s := p[Serial].s;
      && |s| == 8 && Decimal.IsDigits(s)
      && Decimal.Value(s[..3]) == buf[488]
      && Decimal.Value(s[3..]) == 256 * buf[485] as int + buf[486]
  {
    NetLookup(buf, dateTime, Serial);
    SerialTextLayout(buf[488], BrultechUtil.ExtractShort(buf[485..487]));
  }

  /**
   * Channel j (1..32) of a BIN48-NET packet: 'ch%d_a_energy' is the 5-byte
   * little-endian counter at bytes 5j..5j+4 and 'ch%d_p_energy' the one at
   * 240+5j..244+5j; both are below 2^40.
   */
  lemma NetEnergies(buf: seq<byte>, dateTime: int, j: nat)
    requires |buf| >= 619 && 1 <= j <= 32
    ensures var p := NetFields(buf, dateTime);
      && Indexed(ChAEnergy, j) in p && p[Indexed(ChAEnergy, j)] == Int(LittleEndian(buf[5 + (j - 1) * 5 .. 5 + (j - 1) * 5 + 5]))
      && Indexed(ChPEnergy, j) in p && p[Indexed(ChPEnergy, j)] == Int(LittleEndian(buf[245 + (j - 1) * 5 .. 245 + (j - 1) * 5 + 5]))
  {
    NetCounterAt(buf, dateTime, ChAEnergy, 5, j);
    NetCounterAt(buf, dateTime, ChPEnergy, 245, j);
  }

  /** One of the two 5-byte counter blocks: ch%d_a_energy from offset 5 or ch%d_p_energy from offset 245. */
  lemma NetCounterAt(buf: seq<byte>, dateTime: int, tag: Template, off: nat, j: nat)
    requires |buf| >= 619 && 1 <= j <= 32
    requires (tag == ChAEnergy && off == 5) || (tag == ChPEnergy && off == 245)
    ensures var p := NetFields(buf, dateTime);
      Indexed(tag, j) in p && p[Indexed(tag, j)] == Int(LittleEndian(buf[off + (j - 1) * 5 .. off + (j - 1) * 5 + 5]))
  {
    NetLookup(buf, dateTime, Indexed(tag, j));
    OffsetIsProduct(32, 5);
    OffsetIsProduct(j - 1, 5);
    SeqFieldsAt(buf, off, 32, 5, tag, j, off + (j - 1) * 5);
  }

  /** Pulse counter j (1..4) of a BIN48-NET packet is the 3-byte little-endian value at bytes 585+3j..587+3j. */
  lemma NetPulses(buf: seq<byte>, dateTime: int, j: nat)
    requires |buf| >= 619 && 1 <= j <= 4
    ensures var p := NetFields(buf, dateTime);
      Indexed(PCount, j) in p && p[Indexed(PCount, j)] == Int(LittleEndian(buf[588 + (j - 1) * 3 .. 588 + (j - 1) * 3 + 3]))
  {
    NetLookup(buf, dateTime, Indexed(PCount, j));
    OffsetIsProduct(4, 3);
    OffsetIsProduct(j - 1, 3);
    SeqFieldsAt(buf, 588, 4, 3, PCount, j, 588 + (j - 1) * 3);
  }

  /**
   * Temperature j (1..8) of a BIN48-NET packet is present exactly when the
   * reading of sensor j-1 (bytes 598+2j, 599+2j) is within 255 degrees, and is
   * then half of it.
   */
  lemma NetTemperatures(buf: seq<byte>, dateTime: int, j: nat)
    requires |buf| >= 619 && 1 <= j <= 8
    ensures var p := NetFields(buf, dateTime);
      var t := TemperatureAt(buf, j - 1);
      && (Indexed(TTemperature, j) in p <==> -510 <= t <= 510)
      && (Indexed(TTemperature, j) in p ==> p[Indexed(TTemperature, j)] == Ratio(t, 2))
  {
    var k := Indexed(TTemperature, j);
    NetLookup(buf, dateTime, k);
    HeaderKeys(buf, dateTime, k);
    SeqFieldsKeyOf(buf[5..], 32, 5, ChAEnergy, k);
    SeqFieldsKeyOf(buf[245..], 32, 5, ChPEnergy, k);
    SeqFieldsKeyOf(buf[588..], 4, 3, PCount, k);
    TemperaturesEntry(buf, 8, k);
  }

  /** A BIN48-NET packet holds these keys and no others. */
  lemma NetKeys(buf: seq<byte>, dateTime: int, k: Key)
    requires |buf| >= 619
    ensures k in NetFields(buf, dateTime) <==>
      || k in {DateTime, UsUnits, Volts, SerNo, UnitId, Secs, Serial}
      || (k.Indexed? && (k.template == ChAEnergy || k.template == ChPEnergy) && 1 <= k.index <= 32)
      || (k.Indexed? && k.template == PCount && 1 <= k.index <= 4)
      || (k.Indexed? && k.template == TTemperature && 1 <= k.index <= 8 && InRange(TemperatureAt(buf, k.index - 1)))
  {
    NetLookup(buf, dateTime, k);
    HeaderKeys(buf, dateTime, k);
    SeqFieldsKeyOf(buf[5..], 32, 5, ChAEnergy, k);
    SeqFieldsKeyOf(buf[245..], 32, 5, ChPEnergy, k);
    SeqFieldsKeyOf(buf[588..], 4, 3, PCount, k);
    TemperaturesEntry(buf, 8, k);
  }

  /** The embedded time of a BIN48-NET-TIME packet, or the ValueError timegm raises. */
  function EmbeddedTime(buf: seq<byte>): (r: Result<int, PacketError>)
    requires |buf| >= 625
    ensures r.Failure? <==> !(1 <= buf[617] <= 12)
    ensures r.Failure? ==> r.error == MonthOutOfRange(buf[617])
    ensures r.Success? ==> r.value == Calendar.EpochSeconds(buf[616] as int + 2000, buf[617], buf[618], buf[619], buf[620], buf[621])
  {
    var year, month, day, hour, minute, second := buf[616], buf[617], buf[618], buf[619], buf[620], buf[621];
    if 1 <= month <= 12 then
      Calendar.TimegmCountsSeconds(year as int + 2000, month, day, hour, minute, second);
      Success(Calendar.Timegm(year as int + 2000, month, day, hour, minute, second))
    else
      Failure(MonthOutOfRange(month))
  }

  /** What GEMBin48NetTime._extract_packet_from returns (or raises). */
  function NetTimeFields(buf: seq<byte>, dateTime: int): Result<Packet, PacketError>
    requires |buf| >= 625
  {
    var time := EmbeddedTime(buf);
    if time.Failure? then Failure(time.error)
    else Success(NetFields(buf, dateTime)[TimeCreated := Int(time.value)])
  }

  /** What _extract_packet_from of the packet type returns (or raises) for a full-length buffer. */
  function Decoded(t: PacketType, buf: seq<byte>, dateTime: int): Result<Packet, PacketError>
    requires |buf| == PacketLength(t)
  {
    match t
    case GEMBin48Net => Success(NetFields(buf, dateTime))
    case GEMBin48NetTime => NetTimeFields(buf, dateTime)
  }

  /** GEMBin48Net._extract_packet_from: a dict filled field group by field group, then sensor by sensor. */
  method ExtractNet(buf: seq<byte>, dateTime: int) returns (packet: Packet)
    requires |buf| >= 619
    ensures packet == NetFields(buf, dateTime)
  {
    var serNo, unitId := BrultechUtil.ExtractShort(buf[485..487]), buf[488];
    var secs := BrultechUtil.Unpack(buf[585..588]);
    packet := map[DateTime := Int(dateTime),
                  UsUnits := Int(METRICWX),
                  Volts := Ratio(BrultechUtil.ExtractShort(buf[3..5]), 10),
                  SerNo := Int(serNo),
                  UnitId := Int(unitId),
                  Secs := Int(secs)];
    assert packet == Header(buf, dateTime);
    var aws := BrultechUtil.ExtractSeq(buf[5..], 32, 5, ChAEnergy);
    packet := packet + aws;
    var pws := BrultechUtil.ExtractSeq(buf[245..], 32, 5, ChPEnergy);
    packet := packet + pws;
    packet := packet + map[Serial := Text(SerialText(unitId, serNo))];
    var pulse := BrultechUtil.ExtractSeq(buf[588..], 4, 3, PCount);
    packet := packet + pulse;
    packet := AddTemperatures(packet, buf);
  }

  /** The sensor loop of _extract_packet_from: every in-range reading is stored in the dict. */
  method AddTemperatures(fixed: Packet, buf: seq<byte>) returns (packet: Packet)
    requires |buf| >= 616
    ensures packet == fixed + Temperatures(buf, 8)
  {
    packet := fixed;
    assert fixed + Temperatures(buf, 0) == fixed;
    for i := 0 to 8
      invariant packet == fixed + Temperatures(buf, i)
    {
      var t := BrultechUtil.MkTemperature(buf[600 + 2 * i..]);
      if -510 <= t <= 510 {
        UnionUpdate(fixed, Temperatures(buf, i), Indexed(TTemperature, i + 1), Ratio(t, 2));
        packet := packet[Indexed(TTemperature, i + 1) := Ratio(t, 2)];
      }
    }
  }

  /** Adding an entry after merging two dicts is adding it to the second one. */
  lemma UnionUpdate(a: Packet, b: Packet, k: Key, v: Value)
    ensures (a + b)[k := v] == a + b[k := v]
  {
  }

  /** GEMBin48NetTime._extract_packet_from: the BIN48-NET fields plus 'time_created'. */
  method ExtractNetTime(buf: seq<byte>, dateTime: int) returns (r: Result<Packet, PacketError>)
    requires |buf| >= 625
    ensures r == NetTimeFields(buf, dateTime)
  {
    var packet := ExtractNet(buf, dateTime);
    var time := EmbeddedTime(buf);
    if time.Failure? {
      return Failure(time.error);
    }
    packet := packet[TimeCreated := Int(time.value)];
    return Success(packet);
  }

  /**
   * get_packet on the buffer the device sent: the end, checksum and id checks
   * in that order, and only when all three pass, the decoded packet.  The
   * read can come back short without raising, so any buffer of 3 or more bytes
   * is taken; only one that passes the checks must have the full length.
   */
  method GetPacket(t: PacketType, buf: seq<byte>, dateTime: int) returns (r: Result<Packet, PacketError>)
    requires |buf| >= 3
    requires Check(buf).Pass? ==> |buf| == PacketLength(t)
    ensures Check(buf).Fail? ==> r == Failure(Check(buf).error)
    ensures Check(buf).Pass? ==> r == Decoded(t, buf, dateTime)
    ensures r.Success? <==>
              && Frame.EndsOk(buf) && Frame.ChecksumOk(buf) && Frame.IdOk(buf, PACKET_ID)
              && (t == GEMBin48NetTime ==> 1 <= buf[617] <= 12)
  {
    var check := Check(buf);
    if check.Fail? {
      return Failure(check.error);
    }
    match t {
      case GEMBin48Net =>
        var packet := ExtractNet(buf, dateTime);
        r := Success(packet);
      case GEMBin48NetTime =>
        r := ExtractNetTime(buf, dateTime);
    }
  }
}
