/**
 * The packet dictionary both drivers produce: a Python dict from observation
 * names to values.  Names built from a '%d' template ('ch%d_aws') are
 * `Indexed` keys, so distinct templates and channel numbers give distinct
 * keys, as the formatted strings do.
 */
module Packets {
  import opened Bytes
  import Decimal

  /** The '%d' name templates of the per-channel observations. */
  datatype Template =
    | ChAEnergy     // 'ch%d_a_energy'    absolute watt-seconds (brultech.py)
    | ChPEnergy     // 'ch%d_p_energy'    polarized watt-seconds (brultech.py)
    | PCount        // 'p%d_count'        pulse counter (brultech.py)
    | TTemperature  // 't%d_temperature'  temperature in degrees C (brultech.py)
    | ChAws         // 'ch%d_aws'         absolute watt-seconds (gem_driver.py)
    | ChPws         // 'ch%d_pws'         polarized watt-seconds (gem_driver.py)
    | P             // 'p%d'              pulse counter (gem_driver.py)
    | T             // 't%d'              raw temperature (gem_driver.py)
    | ChW           // 'ch%d_w'           derived in gem_driver.py from here on
    | ChPw          // 'ch%d_pw'
    | ChNw          // 'ch%d_nw'
    | ChPwh         // 'ch%d_pwh'
    | ChNwh         // 'ch%d_nwh'
    | ChWh          // 'ch%d_wh'
    | ChDwh         // 'ch%d_dwh'

  datatype Key =
    | Indexed(template: Template, index: nat)  // template % index
    | DateTime     // 'dateTime'
    | UsUnits      // 'usUnits'
    | Volts        // 'volts'
    | SerNo        // 'ser_no'
    | UnitId       // 'unit_id'
    | Serial       // 'serial'
    | Secs         // 'secs'
    | TimeCreated  // 'time_created'
    | PacketId     // 'packet_id'
    | Interval     // 'interval'

  /** A Python int, a float num/den kept exact, or a str. */
  datatype Value = Int(i: int) | Ratio(num: int, den: nat) | Text(s: string)

  type Packet = map<Key, Value>

  /** The keys tag % 1 .. tag % n. */
  function IndexedKeys(tag: Template, n: nat): (ks: set<Key>)
    ensures forall j: nat :: Indexed(tag, j) in ks <==> 1 <= j <= n
    ensures forall k :: k in ks ==> k.Indexed? && k.template == tag
    ensures |ks| == n
  {
    if n == 0 then {} else IndexedKeys(tag, n - 1) + {Indexed(tag, n)}
  }

  /**
   * i * nbyte, where field i starts, written as repeated addition so that the
   * solver treats it as a function rather than as nonlinear arithmetic
   * (lemma OffsetIsProduct).
   */
  function Offset(i: nat, nbyte: nat): nat
  {
    if i == 0 then 0 else Offset(i - 1, nbyte) + nbyte
  }

  lemma {:induction false} OffsetIsProduct(i: nat, nbyte: nat)
    ensures Offset(i, nbyte) == i * nbyte
  {
    if i > 0 {
      OffsetIsProduct(i - 1, nbyte);
      assert i * nbyte == (i - 1) * nbyte + nbyte;
    }
  }

  /** Field i ends no later than field n starts, for i < n. */
  lemma {:induction false} OffsetMono(i: nat, n: nat, nbyte: nat)
    requires i < n
    ensures Offset(i, nbyte) + nbyte <= Offset(n, nbyte)
  {
    if i + 1 < n {
      OffsetMono(i, n - 1, nbyte);
    }
  }

  /** unpack(buf[i*nbyte : i*nbyte+nbyte]): the i-th nbyte-wide field, counting from 0. */
  function FieldAt(buf: seq<byte>, i: nat, nbyte: nat): nat
  {
    LittleEndian(Slice(buf, Offset(i, nbyte), Offset(i, nbyte) + nbyte))
  }

  /** What extract_seq(buf, n, nbyte, tag) returns: {tag % (i + 1): field i for i in range(n)}. */
  function SeqFields(buf: seq<byte>, n: nat, nbyte: nat, tag: Template): Packet
  {
    if n == 0 then map[] else SeqFields(buf, n - 1, nbyte, tag)[Indexed(tag, n) := Int(FieldAt(buf, n - 1, nbyte))]
  }

  /** The dict extract_seq returns holds a key exactly when it is tag % j for some j in 1..n. */
  lemma {:induction false} SeqFieldsKeyOf(buf: seq<byte>, n: nat, nbyte: nat, tag: Template, k: Key)
    ensures k in SeqFields(buf, n, nbyte, tag) <==> k.Indexed? && k.template == tag && 1 <= k.index <= n
  {
    if n > 0 {
      SeqFieldsKeyOf(buf, n - 1, nbyte, tag, k);
    }
  }

  /** The entry under tag % j (1 <= j <= n) is the (j-1)-th nbyte-wide field of the buffer. */
  lemma {:induction false} SeqFieldsValues(buf: seq<byte>, n: nat, nbyte: nat, tag: Template, j: nat)
    requires 1 <= j <= n
    ensures Indexed(tag, j) in SeqFields(buf, n, nbyte, tag)
    ensures SeqFields(buf, n, nbyte, tag)[Indexed(tag, j)] == Int(FieldAt(buf, j - 1, nbyte))
  {
    SeqFieldsKeyOf(buf, n, nbyte, tag, Indexed(tag, j));
    if j < n {
      SeqFieldsValues(buf, n - 1, nbyte, tag, j);
    }
  }

  /** One more pass of extract_seq's loop adds the entry tag % (i + 1). */
  lemma SeqFieldsStep(buf: seq<byte>, i: nat, nbyte: nat, tag: Template, x: nat)
    requires x == LittleEndian(Slice(buf, Offset(i, nbyte), Offset(i, nbyte) + nbyte))
    ensures SeqFields(buf, i + 1, nbyte, tag) == SeqFields(buf, i, nbyte, tag)[Indexed(tag, i + 1) := Int(x)]
  {
  }

  /** Looking a key up in six merged dicts whose keys do not overlap. */
  lemma MergeLookup(h: Packet, a: Packet, b: Packet, s: Packet, u: Packet, t: Packet, k: Key)
    requires k in h ==> k !in a && k !in b && k !in s && k !in u && k !in t
    requires k in a ==> k !in b && k !in s && k !in u && k !in t
    requires k in b ==> k !in s && k !in u && k !in t
    requires k in s ==> k !in u && k !in t
    requires k in u ==> k !in t
    ensures var p := h + a + b + s + u + t;
      && (k in p <==> k in h || k in a || k in b || k in s || k in u || k in t)
      && (k in h ==> p[k] == h[k])
      && (k in a ==> p[k] == a[k])
      && (k in b ==> p[k] == b[k])
      && (k in s ==> p[k] == s[k])
      && (k in u ==> p[k] == u[k])
      && (k in t ==> p[k] == t[k])
  {
  }

  /** On a buffer long enough for n fields, field i (i < n) is the i-th nbyte-wide run of bytes. */
  lemma FieldAtInRange(buf: seq<byte>, n: nat, nbyte: nat, i: nat)
    requires i < n && Offset(n, nbyte) <= |buf|
    ensures Offset(i, nbyte) + nbyte <= |buf|
    ensures FieldAt(buf, i, nbyte) == LittleEndian(buf[Offset(i, nbyte) .. Offset(i, nbyte) + nbyte])
  {
    OffsetMono(i, n, nbyte);
    SliceFacts(buf, Offset(i, nbyte), Offset(i, nbyte) + nbyte);
  }

  /**
   * extract_seq(buf[off:], n, nbyte, tag) on a buffer long enough for all n
   * fields: tag % j (1 <= j <= n) is the little-endian value of the nbyte
   * bytes of buf from lo = off + (j-1)*nbyte.
   */
  lemma SeqFieldsAt(buf: seq<byte>, off: nat, n: nat, nbyte: nat, tag: Template, j: nat, lo: nat)
    requires off + Offset(n, nbyte) <= |buf| && 1 <= j <= n && lo == off + Offset(j - 1, nbyte)
    ensures lo + nbyte <= |buf|
    ensures Indexed(tag, j) in SeqFields(buf[off..], n, nbyte, tag)
    ensures SeqFields(buf[off..], n, nbyte, tag)[Indexed(tag, j)] == Int(LittleEndian(buf[lo .. lo + nbyte]))
  {
    SeqFieldsValues(buf[off..], n, nbyte, tag, j);
    FieldOfDrop(buf, off, n, nbyte, j - 1, lo);
  }

  /** Field i of buf[off..] is the nbyte bytes of buf from lo = off + i*nbyte. */
  lemma FieldOfDrop(buf: seq<byte>, off: nat, n: nat, nbyte: nat, i: nat, lo: nat)
    requires off + Offset(n, nbyte) <= |buf| && i < n && lo == off + Offset(i, nbyte)
    ensures lo + nbyte <= |buf|
    ensures FieldAt(buf[off..], i, nbyte) == LittleEndian(buf[lo .. lo + nbyte])
  {
    FieldAtInRange(buf[off..], n, nbyte, i);
    SliceOfDrop(buf, off, Offset(i, nbyte), nbyte);
  }

  /** '%03d%05d' % (unit_id, ser_no): the formatted serial number. */
  function SerialText(unitId: nat, serNo: nat): string
  {
    Decimal.ZeroPad(unitId, 3) + Decimal.ZeroPad(serNo, 5)
  }

  /**
   * A unit id below 1000 and a serial number below 100000 always give 8
   * digits, and both numbers can be read back from them.
   */
  lemma SerialTextLayout(unitId: nat, serNo: nat)
    requires unitId < 1000 && serNo < 100000
    ensures var s := SerialText(unitId, serNo);
      && |s| == 8 && Decimal.IsDigits(s)
      && Decimal.Value(s[..3]) == unitId && Decimal.Value(s[3..]) == serNo
  {
    assert Decimal.Pow10(3) == 1000 && Decimal.Pow10(5) == 100000;
    Decimal.ZeroPadWidth(unitId, 3);
    Decimal.ZeroPadWidth(serNo, 5);
    var s := SerialText(unitId, serNo);
    assert s[..3] == Decimal.ZeroPad(unitId, 3);
    assert s[3..] == Decimal.ZeroPad(serNo, 5);
  }

  predicate HasInt(m: Packet, k: Key)
  {
    k in m && m[k].Int?
  }

  /** A Python dict object, shared by reference: what calculate() updates in place. */
  class PacketDict {
    var fields: Packet

    constructor (fields: Packet)
      ensures this.fields == fields
    {
      this.fields := fields;
    }
  }
}
