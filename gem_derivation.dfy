/**
 * The derived quantities of the older driver, bin/weepwr/gem_driver.py:
 * `_calc_pe`, which writes the power and energy of one channel into the
 * current packet, and `calculate`, which checks every channel for a counter
 * reset and then derives every channel and the interval in place.
 *
 * Python 2's `/` on two ints is floor division (Counters.FloorDiv); the
 * divisions by 3600.0 and 60.0 give floats, kept here as exact ratios.
 */
module GemDerivation {
  import opened Wrappers
  import opened Packets
  import opened Weepwr
  import Counters
  import BrultechUtil
  import GemPackets

  const NUM_CHAN: nat := GemPackets.NUM_CHAN

  /** What calculate reads from a packet: 'secs', and 'ch%d_aws' and 'ch%d_pws' for every channel. */
  predicate HasCounters(p: Packet)
  {
    && HasInt(p, Secs)
    && (forall x: nat :: 1 <= x <= NUM_CHAN ==> HasInt(p, Indexed(ChAws, x)))
    && (forall x: nat :: 1 <= x <= NUM_CHAN ==> HasInt(p, Indexed(ChPws, x)))
  }

  function Aws(p: Packet, x: nat): int
    requires HasCounters(p) && 1 <= x <= NUM_CHAN
  {
    p[Indexed(ChAws, x)].i
  }

  function Pws(p: Packet, x: nat): int
    requires HasCounters(p) && 1 <= x <= NUM_CHAN
  {
    p[Indexed(ChPws, x)].i
  }

  /** The templates of the three power entries and the four energy entries _calc_pe writes. */
  predicate IsPower(t: Template)
  {
    t == ChW || t == ChPw || t == ChNw
  }

  predicate IsEnergy(t: Template)
  {
    t == ChPwh || t == ChNwh || t == ChWh || t == ChDwh
  }

  predicate IsDerived(t: Template)
  {
    IsPower(t) || IsEnergy(t)
  }

  /** The two watt-second counters of one channel in one packet. */
  datatype Counts = Counts(aws: int, pws: int)

  function CountsOf(p: Packet, x: nat): (c: Counts)
    requires HasCounters(p) && 1 <= x <= NUM_CHAN
    ensures c.aws == Aws(p, x) && c.pws == Pws(p, x)
  {
    Counts(Aws(p, x), Pws(p, x))
  }

  /** Absolute watt-seconds counted since the previous packet, through one wraparound at 2^40. */
  function Daws(c: Counts, before: Counts): int
  {
    Counters.WrapDelta(before.aws, c.aws, Counters.BYTE5_COUNTER_MAX)
  }

  /** Polarized watt-seconds counted since the previous packet, through one wraparound at 2^40. */
  function Dpws(c: Counts, before: Counts): int
  {
    Counters.WrapDelta(before.pws, c.pws, Counters.BYTE5_COUNTER_MAX)
  }

  /**
   * A power entry of a channel whose counters read c now and `before` in the
   * previous packet, ds seconds earlier: the average absolute power
   * daws // ds is split into the average polarized power dpws // ds, stored
   * as '_nw', and the rest, stored as '_pw' (the labels are swapped); '_w' is
   * the average absolute power, negated when '_pw' is zero.
   */
  function PowerValue(t: Template, ds: int, c: Counts, before: Counts): Value
    requires IsPower(t) && ds != 0
  {
    var w := Counters.FloorDiv(Daws(c, before), ds);
    var pw := Counters.FloorDiv(Dpws(c, before), ds);
    if t == ChW then Int(if w - pw == 0 then -w else w)
    else if t == ChPw then Int(w - pw)
    else Int(pw)
  }

  /** The numerator of the cumulative watt-hours over 3600: aws - 2*pws. */
  function WhNum(c: Counts): int
  {
    c.aws - 2 * c.pws
  }

  /**
   * An energy entry, in watt-hours (a numerator over 3600): the unpolarized
   * part as '_pwh' and the polarized part as '_nwh' (swapped like the
   * powers), their difference as '_wh', and the change of that difference
   * since the previous packet as '_dwh'.
   */
  function EnergyValue(t: Template, c: Counts, before: Counts): Value
    requires IsEnergy(t)
  {
    if t == ChPwh then Ratio(c.aws - c.pws, 3600)
    else if t == ChNwh then Ratio(c.pws, 3600)
    else if t == ChWh then Ratio(WhNum(c), 3600)
    else Ratio(WhNum(c) - WhNum(before), 3600)
  }

  function PeValue(t: Template, ds: int, c: Counts, before: Counts): Value
    requires IsDerived(t) && ds != 0
  {
    if IsPower(t) then PowerValue(t, ds, c, before) else EnergyValue(t, c, before)
  }

  /** The three power entries of channel x. */
  function Watts(x: nat, ds: int, c: Counts, before: Counts): Packet
    requires ds != 0
  {
    map[Indexed(ChW, x) := PowerValue(ChW, ds, c, before),
        Indexed(ChPw, x) := PowerValue(ChPw, ds, c, before),
        Indexed(ChNw, x) := PowerValue(ChNw, ds, c, before)]
  }

  /** The four energy entries of channel x. */
  function WattHours(x: nat, c: Counts, before: Counts): Packet
  {
    map[Indexed(ChPwh, x) := EnergyValue(ChPwh, c, before),
        Indexed(ChNwh, x) := EnergyValue(ChNwh, c, before),
        Indexed(ChWh, x) := EnergyValue(ChWh, c, before),
        Indexed(ChDwh, x) := EnergyValue(ChDwh, c, before)]
  }

  /** Everything _calc_pe writes for channel x. */
  function PeFields(x: nat, ds: int, c: Counts, before: Counts): Packet
    requires ds != 0
  {
    Watts(x, ds, c, before) + WattHours(x, c, before)
  }

  /** a - b for two floats held over the same denominator. */
  function RatioSub(a: Value, b: Value): (r: Value)
    requires a.Ratio? && b.Ratio? && a.den == b.den
    ensures r.Ratio? && r.den == a.den && r.num + b.num == a.num
  {
    Ratio(a.num - b.num, a.den)
  }

  /** _calc_pe: writes the power and then the energy entries of channel x into ret. */
  method CalcPe(x: nat, ds: int, ret: PacketDict, prev: Packet)
    requires ds != 0 && HasCounters(ret.fields) && HasCounters(prev) && 1 <= x <= NUM_CHAN
    modifies ret
    ensures ret.fields == old(ret.fields) + PeFields(x, ds, CountsOf(old(ret.fields), x), CountsOf(prev, x))
  {
    ghost var before := ret.fields;
    CalcPower(x, ds, ret, prev);
    PowerKeepsCounters(x, ds, before, CountsOf(prev, x));
    CalcEnergy(x, ret, prev);
  }

  /** The first half of _calc_pe: the counter deltas through one wraparound, then the three powers. */
  method CalcPower(x: nat, ds: int, ret: PacketDict, prev: Packet)
    requires ds != 0 && HasCounters(ret.fields) && HasCounters(prev) && 1 <= x <= NUM_CHAN
    modifies ret
    ensures ret.fields == old(ret.fields) + Watts(x, ds, CountsOf(old(ret.fields), x), CountsOf(prev, x))
  {
    ghost var before := ret.fields;
    var aws, pws := Indexed(ChAws, x), Indexed(ChPws, x);
    var daws := ret.fields[aws].i - prev[aws].i;
    if ret.fields[aws].i < prev[aws].i {
      daws := daws + Counters.BYTE5_COUNTER_MAX;
    }
    var dpws := ret.fields[pws].i - prev[pws].i;
    if ret.fields[pws].i < prev[pws].i {
      dpws := dpws + Counters.BYTE5_COUNTER_MAX;
    }
    ghost var c, b := CountsOf(before, x), CountsOf(prev, x);
    assert daws == Daws(c, b) && dpws == Dpws(c, b);
    var w := Counters.FloorDiv(daws, ds);
    ret.fields := ret.fields[Indexed(ChW, x) := Int(w)];
    var pw := Counters.FloorDiv(dpws, ds);
    var nw := ret.fields[Indexed(ChW, x)].i - pw;
    ret.fields := ret.fields[Indexed(ChPw, x) := Int(nw)];
    ret.fields := ret.fields[Indexed(ChNw, x) := Int(pw)];
    ghost var written := map[Indexed(ChW, x) := Int(if nw == 0 then -w else w), Indexed(ChPw, x) := Int(nw), Indexed(ChNw, x) := Int(pw)];
    assert written == Watts(x, ds, c, b);
    if ret.fields[Indexed(ChPw, x)].i == 0 {
      ret.fields := ret.fields[Indexed(ChW, x) := Int(ret.fields[Indexed(ChW, x)].i * -1)];
    }
    UpdatesAreUnion(before, Indexed(ChW, x), Indexed(ChPw, x), Indexed(ChNw, x), Int(w), Int(nw), Int(pw), written[Indexed(ChW, x)]);
  }

  /** Three entries written one by one, the first of them written again last, make one dict update. */
  lemma UpdatesAreUnion(m: Packet, k1: Key, k2: Key, k3: Key, v1: Value, v2: Value, v3: Value, v1': Value)
    requires k1 != k2 && k1 != k3 && k2 != k3
    ensures m[k1 := v1][k2 := v2][k3 := v3] == m + map[k1 := v1, k2 := v2, k3 := v3]
    ensures m[k1 := v1][k2 := v2][k3 := v3][k1 := v1'] == m + map[k1 := v1', k2 := v2, k3 := v3]
  {
  }

  /** The second half of _calc_pe: the watt-hour entries, from the counters of ret and prev. */
  method CalcEnergy(x: nat, ret: PacketDict, prev: Packet)
    requires HasCounters(ret.fields) && HasCounters(prev) && 1 <= x <= NUM_CHAN
    modifies ret
    ensures ret.fields == old(ret.fields) + WattHours(x, CountsOf(old(ret.fields), x), CountsOf(prev, x))
  {
    var aws, pws := Indexed(ChAws, x), Indexed(ChPws, x);
    var pwh := Ratio(ret.fields[pws].i, 3600);
    var nwh := Ratio(ret.fields[aws].i - ret.fields[pws].i, 3600);
    ret.fields := ret.fields[Indexed(ChPwh, x) := nwh];
    ret.fields := ret.fields[Indexed(ChNwh, x) := pwh];
    var prevDwh := Ratio(prev[aws].i - 2 * prev[pws].i, 3600);
    ret.fields := ret.fields[Indexed(ChWh, x) := RatioSub(ret.fields[Indexed(ChPwh, x)], ret.fields[Indexed(ChNwh, x)])];
    ret.fields := ret.fields[Indexed(ChDwh, x) := RatioSub(ret.fields[Indexed(ChWh, x)], prevDwh)];
  }

  /** Writing the power entries leaves the counters, and so the energy entries, as they were. */
  lemma PowerKeepsCounters(x: nat, ds: int, p: Packet, before: Counts)
    requires ds != 0 && HasCounters(p) && 1 <= x <= NUM_CHAN
    ensures var q := p + Watts(x, ds, CountsOf(p, x), before);
      HasCounters(q) && CountsOf(q, x) == CountsOf(p, x)
  {
    var q := p + Watts(x, ds, CountsOf(p, x), before);
    forall y: nat | 1 <= y <= NUM_CHAN
      ensures q[Indexed(ChAws, y)] == p[Indexed(ChAws, y)] && q[Indexed(ChPws, y)] == p[Indexed(ChPws, y)]
    {
    }
  }

  /** The power entries of channel x: one per power template, each holding PowerValue. */
  lemma WattsEntries(x: nat, ds: int, c: Counts, before: Counts)
    requires ds != 0
    ensures forall k :: k in Watts(x, ds, c, before) <==> k.Indexed? && IsPower(k.template) && k.index == x
    ensures forall k :: k in Watts(x, ds, c, before) ==> Watts(x, ds, c, before)[k] == PowerValue(k.template, ds, c, before)
  {
  }

  /** The energy entries of channel x: one per energy template, each holding EnergyValue. */
  lemma WattHoursEntries(x: nat, c: Counts, before: Counts)
    ensures forall k :: k in WattHours(x, c, before) <==> k.Indexed? && IsEnergy(k.template) && k.index == x
    ensures forall k :: k in WattHours(x, c, before) ==> WattHours(x, c, before)[k] == EnergyValue(k.template, c, before)
  {
  }

  /** The entries _calc_pe writes for channel x: one per derived template, each holding PeValue. */
  lemma PeFieldsEntries(x: nat, ds: int, c: Counts, before: Counts)
    requires ds != 0
    ensures forall k :: k in PeFields(x, ds, c, before) <==> k.Indexed? && IsDerived(k.template) && k.index == x
    ensures forall k :: k in PeFields(x, ds, c, before) ==> PeFields(x, ds, c, before)[k] == PeValue(k.template, ds, c, before)
  {
    var w, e := Watts(x, ds, c, before), WattHours(x, c, before);
    WattsEntries(x, ds, c, before);
    WattHoursEntries(x, c, before);
    forall k: Key
      ensures k in w + e <==> k.Indexed? && IsDerived(k.template) && k.index == x
      ensures k in w + e ==> (w + e)[k] == PeValue(k.template, ds, c, before)
    {
      if k in w {
        assert (w + e)[k] == w[k];
      } else if k in e {
        assert (w + e)[k] == e[k];
      }
    }
  }

  // ---- calculate ----

  /** Whether k is one of the entries _calc_pe writes for the channels 1..n. */
  predicate DerivedBy(k: Key, n: nat)
  {
    k.Indexed? && IsDerived(k.template) && 1 <= k.index <= n
  }

  /** The value _calc_pe gives the derived entry k, from the counters of its channel in now and prev. */
  function DerivedEntry(k: Key, ds: int, now: Packet, prev: Packet): Value
    requires ds != 0 && HasCounters(now) && HasCounters(prev) && DerivedBy(k, NUM_CHAN)
  {
    PeValue(k.template, ds, CountsOf(now, k.index), CountsOf(prev, k.index))
  }

  /**
   * `fields` is what the channel loop of calculate leaves after channels
   * 1..n: the packet's own entries untouched, and the derived entries of
   * those channels, each computed from the counters the packet came with.
   */
  ghost predicate DerivedUpTo(n: nat, fields: Packet, ds: int, original: Packet, prev: Packet)
  {
    && ds != 0 && HasCounters(original) && HasCounters(prev) && n <= NUM_CHAN
    && (forall k :: k in fields <==> k in original || DerivedBy(k, n))
    && (forall k :: k in fields && DerivedBy(k, n) ==> fields[k] == DerivedEntry(k, ds, original, prev))
    && (forall k :: k in fields && !DerivedBy(k, n) ==> fields[k] == original[k])
  }

  /** The seconds between the two packets, as _calc_secs(prev, now) computes them. */
  function Ds(prev: Packet, now: Packet): int
    requires HasCounters(prev) && HasCounters(now)
  {
    BrultechUtil.CalcSecs(prev, now)
  }

  /** The first channel from `from` on whose absolute counter went down: what the reset check of calculate finds. */
  function FirstDrop(prev: Packet, now: Packet, from: nat): (r: Option<nat>)
    requires HasCounters(prev) && HasCounters(now) && 1 <= from <= NUM_CHAN + 1
    ensures r.Some? ==> from <= r.value <= NUM_CHAN && Aws(now, r.value) < Aws(prev, r.value)
    ensures r.Some? ==> forall y: nat :: from <= y < r.value ==> Aws(prev, y) <= Aws(now, y)
    ensures r.None? <==> forall y: nat :: from <= y <= NUM_CHAN ==> Aws(prev, y) <= Aws(now, y)
    decreases NUM_CHAN + 1 - from
  {
    if from > NUM_CHAN then None
    else if Aws(now, from) < Aws(prev, from) then Some(from)
    else FirstDrop(prev, now, from + 1)
  }

  /**
   * What calculate leaves in the dict when it raises nothing: the packet's
   * own entries, unchanged; the seven derived entries of every channel; and
   * the interval, ds / 60 minutes.
   */
  ghost predicate IsCalculated(prev: Packet, now: Packet, r: Packet)
    requires HasCounters(prev) && HasCounters(now) && Ds(prev, now) != 0
  {
    var ds := Ds(prev, now);
    && (forall k :: k in r <==> k in now || k == Interval || DerivedBy(k, NUM_CHAN))
    && r[Interval] == Ratio(ds, 60)
    && (forall k :: k in r && DerivedBy(k, NUM_CHAN) ==> r[k] == DerivedEntry(k, ds, now, prev))
    && (forall k :: k in r && k != Interval && !DerivedBy(k, NUM_CHAN) ==> r[k] == now[k])
  }

  /**
   * calculate(prev, now): raises CounterResetError for the first channel whose
   * absolute counter went down, before writing anything; otherwise derives
   * every channel into `now` and adds the interval.  When no second has
   * elapsed, the first division of _calc_pe raises ZeroDivisionError, also
   * before anything is written.
   */
  method Calculate(prev: Packet, now: PacketDict) returns (err: Option<GemError>)
    requires HasCounters(prev) && HasCounters(now.fields)
    modifies now
    ensures var drop := FirstDrop(prev, old(now.fields), 1);
      drop.Some? ==>
        && err == Some(CounterResetError(drop.value, Aws(prev, drop.value), Aws(old(now.fields), drop.value)))
        && now.fields == old(now.fields)
    ensures FirstDrop(prev, old(now.fields), 1).None? && Ds(prev, old(now.fields)) == 0 ==>
              err == Some(ZeroDivision) && now.fields == old(now.fields)
    ensures FirstDrop(prev, old(now.fields), 1).None? && Ds(prev, old(now.fields)) != 0 ==>
              err == None && IsCalculated(prev, old(now.fields), now.fields)
  {
    err := CheckResets(prev, now.fields);
    if err.Some? {
      return;
    }
    var ds := BrultechUtil.CalcSecs(prev, now.fields);
    if ds == 0 {
      return Some(ZeroDivision);
    }
    ghost var original := now.fields;
    DeriveChannels(NUM_CHAN, ds, now, prev);
    ghost var derived := now.fields;
    now.fields := now.fields[Interval := Ratio(ds, 60)];
    CalculatedFromDerived(prev, original, derived, now.fields);
  }

  /** The reset check that opens calculate: channel by channel, the first drop raises CounterResetError. */
  method CheckResets(prev: Packet, now: Packet) returns (err: Option<GemError>)
    requires HasCounters(prev) && HasCounters(now)
    ensures var drop := FirstDrop(prev, now, 1);
      && (drop.Some? ==> err == Some(CounterResetError(drop.value, Aws(prev, drop.value), Aws(now, drop.value))))
      && (drop.None? ==> err == None)
  {
    for x := 1 to NUM_CHAN + 1
      invariant forall y: nat :: 1 <= y < x ==> Aws(prev, y) <= Aws(now, y)
    {
      var c0 := prev[Indexed(ChAws, x)].i;
      var c1 := now[Indexed(ChAws, x)].i;
      if c1 < c0 {
        FirstDropIs(prev, now, x);
        return Some(CounterResetError(x, c0, c1));
      }
    }
    return None;
  }

  /** A drop at x with none before it is the one the reset check reports. */
  lemma FirstDropIs(prev: Packet, now: Packet, x: nat)
    requires HasCounters(prev) && HasCounters(now) && 1 <= x <= NUM_CHAN
    requires Aws(now, x) < Aws(prev, x)
    requires forall y: nat :: 1 <= y < x ==> Aws(prev, y) <= Aws(now, y)
    ensures FirstDrop(prev, now, 1) == Some(x)
  {
    var r := FirstDrop(prev, now, 1);
    assert r.Some?;
  }

  /** The channel loop of calculate: _calc_pe for channels 1..n (n is NUM_CHAN there), in order. */
  method DeriveChannels(n: nat, ds: int, now: PacketDict, prev: Packet)
    requires ds != 0 && HasCounters(prev) && HasCounters(now.fields) && n <= NUM_CHAN
    modifies now
    ensures DerivedUpTo(n, now.fields, ds, old(now.fields), prev)
  {
    ghost var original := now.fields;
    DerivedNone(now.fields, ds, prev);
    for x := 1 to n + 1
      invariant DerivedUpTo(x - 1, now.fields, ds, original, prev)
    {
      DeriveOne(x, ds, now, prev, original);
    }
  }

  /** One pass of the channel loop: _calc_pe on channel x, which still reads the counters the packet came with. */
  method DeriveOne(x: nat, ds: int, now: PacketDict, prev: Packet, ghost original: Packet)
    requires 1 <= x <= NUM_CHAN && DerivedUpTo(x - 1, now.fields, ds, original, prev)
    modifies now
    ensures DerivedUpTo(x, now.fields, ds, original, prev)
  {
    ghost var before := now.fields;
    DerivedKeepsCounters(x - 1, before, ds, original, prev, x);
    CalcPe(x, ds, now, prev);
    PeFieldsEntries(x, ds, CountsOf(original, x), CountsOf(prev, x));
    DerivedStep(x, before, PeFields(x, ds, CountsOf(original, x), CountsOf(prev, x)), ds, original, prev);
  }

  /** The loop never writes a counter: each channel reads the counters the packet came with. */
  lemma DerivedKeepsCounters(n: nat, fields: Packet, ds: int, original: Packet, prev: Packet, x: nat)
    requires DerivedUpTo(n, fields, ds, original, prev) && 1 <= x <= NUM_CHAN
    ensures HasCounters(fields) && CountsOf(fields, x) == CountsOf(original, x)
  {
    assert !DerivedBy(Secs, n);
    forall y: nat | 1 <= y <= NUM_CHAN
      ensures HasInt(fields, Indexed(ChAws, y)) && fields[Indexed(ChAws, y)] == original[Indexed(ChAws, y)]
      ensures HasInt(fields, Indexed(ChPws, y)) && fields[Indexed(ChPws, y)] == original[Indexed(ChPws, y)]
    {
      assert !DerivedBy(Indexed(ChAws, y), n) && !DerivedBy(Indexed(ChPws, y), n);
    }
  }

  /** Before the loop, no channel is derived yet. */
  lemma DerivedNone(fields: Packet, ds: int, prev: Packet)
    requires ds != 0 && HasCounters(fields) && HasCounters(prev)
    ensures DerivedUpTo(0, fields, ds, fields, prev)
  {
  }

  /** Adding channel x's entries to what channels 1..x-1 left gives what channels 1..x leave. */
  lemma DerivedStep(x: nat, fields: Packet, pe: Packet, ds: int, original: Packet, prev: Packet)
    requires 1 <= x <= NUM_CHAN && DerivedUpTo(x - 1, fields, ds, original, prev)
    requires forall k :: k in pe <==> k.Indexed? && IsDerived(k.template) && k.index == x
    requires forall k :: k in pe ==> pe[k] == PeValue(k.template, ds, CountsOf(original, x), CountsOf(prev, x))
    ensures DerivedUpTo(x, fields + pe, ds, original, prev)
  {
    var r := fields + pe;
    forall k | k in r && DerivedBy(k, x)
      ensures r[k] == DerivedEntry(k, ds, original, prev)
    {
      if k !in pe {
        assert DerivedBy(k, x - 1);
      }
    }
  }

  /** Adding the interval to what the channel loop leaves is what calculate promises. */
  lemma CalculatedFromDerived(prev: Packet, now: Packet, derived: Packet, r: Packet)
    requires HasCounters(prev) && HasCounters(now) && Ds(prev, now) != 0
    requires DerivedUpTo(NUM_CHAN, derived, Ds(prev, now), now, prev)
    requires r == derived[Interval := Ratio(Ds(prev, now), 60)]
    ensures IsCalculated(prev, now, r)
  {
  }

  // ---- what the derived entries mean ----

  /** For a non-negative a <= b, a // ds <= b // ds when ds > 0. */
  lemma FloorDivMono(a: int, b: int, ds: int)
    requires ds > 0 && a <= b
    ensures Counters.FloorDiv(a, ds) <= Counters.FloorDiv(b, ds)
  {
    var qa, qb := Counters.FloorDiv(a, ds), Counters.FloorDiv(b, ds);
    Counters.FloorDivBounds(a, ds);
    Counters.FloorDivBounds(b, ds);
    if qa > qb {
      Counters.MulBound(qa - qb, ds);
    }
  }

  /**
   * Over a positive interval in which the polarized counter advanced no more
   * than the absolute one (every polarized count is also an absolute count),
   * '_pw' and '_nw' are non-negative and add up to the magnitude of '_w';
   * '_w' is negative exactly when '_pw' is zero and '_nw' is not.
   */
  lemma PowerSigns(ds: int, c: Counts, before: Counts)
    requires ds > 0 && 0 <= Dpws(c, before) <= Daws(c, before)
    ensures var w, pw, nw := PowerValue(ChW, ds, c, before).i, PowerValue(ChPw, ds, c, before).i, PowerValue(ChNw, ds, c, before).i;
      && pw >= 0 && nw >= 0
      && (w < 0 <==> pw == 0 && nw > 0)
      && (if w < 0 then -w else w) == pw + nw
  {
    FloorDivMono(Dpws(c, before), Daws(c, before), ds);
    FloorDivMono(0, Dpws(c, before), ds);
  }

  /**
   * For counter readings below 2^40 and a positive interval, the magnitude of
   * '_w' is the average rate of the absolute counter, rounded down: ds times
   * it is at most the counter's advance modulo 2^40, and ds times one more
   * exceeds it.
   */
  lemma AveragePower(ds: int, c: Counts, before: Counts)
    requires ds > 0
    requires 0 <= before.aws < Counters.BYTE5_COUNTER_MAX && 0 <= c.aws < Counters.BYTE5_COUNTER_MAX
    ensures var a := PowerValue(ChPw, ds, c, before).i + PowerValue(ChNw, ds, c, before).i;
      var adv := (c.aws - before.aws) % Counters.BYTE5_COUNTER_MAX;
      ds * a <= adv < ds * a + ds
  {
    Counters.WrapDeltaModular(before.aws, c.aws, Counters.BYTE5_COUNTER_MAX);
    Counters.FloorDivBounds(Daws(c, before), ds);
  }

  /**
   * The energy entries, all over 3600: '_pwh' and '_nwh' add up to the
   * absolute watt-seconds, '_wh' is their difference, and '_dwh' is the
   * change of '_wh' since the previous packet.
   */
  lemma EnergySplit(c: Counts, before: Counts)
    ensures var pwh, nwh, wh, dwh := EnergyValue(ChPwh, c, before), EnergyValue(ChNwh, c, before),
                                     EnergyValue(ChWh, c, before), EnergyValue(ChDwh, c, before);
      && pwh.den == nwh.den == wh.den == dwh.den == 3600
      && pwh.num + nwh.num == c.aws
      && wh.num == pwh.num - nwh.num
      && dwh.num == wh.num - EnergyValue(ChWh, before, before).num
  {
  }

  /** The '_dwh' numerators of a run of packets, each against the one before it. */
  function DwhTotal(cs: seq<Counts>): int
    requires |cs| >= 1
  {
    if |cs| == 1 then 0
    else DwhTotal(cs[..|cs| - 1]) + EnergyValue(ChDwh, cs[|cs| - 1], cs[|cs| - 2]).num
  }

  /** Summing '_dwh' over a run of packets gives the change of '_wh' from the first to the last. */
  lemma {:induction false} DwhTelescopes(cs: seq<Counts>)
    requires |cs| >= 1
    ensures DwhTotal(cs) == WhNum(cs[|cs| - 1]) - WhNum(cs[0])
  {
    if |cs| > 1 {
      var init := cs[..|cs| - 1];
      DwhTelescopes(init);
      assert init[|init| - 1] == cs[|cs| - 2] && init[0] == cs[0];
    }
  }

  /**
   * Once the reset check has passed, no absolute counter went down, so the
   * wraparound branch for '_aws' in _calc_pe is never taken from calculate.
   */
  lemma NoDropNoWrap(prev: Packet, now: Packet, x: nat)
    requires HasCounters(prev) && HasCounters(now) && 1 <= x <= NUM_CHAN
    requires FirstDrop(prev, now, 1).None?
    ensures Daws(CountsOf(now, x), CountsOf(prev, x)) == Aws(now, x) - Aws(prev, x)
  {
    assert Aws(prev, x) <= Aws(now, x);
  }

  /** The derived entry k of a packet calculate has filled in. */
  lemma CalculatedAt(prev: Packet, now: Packet, r: Packet, k: Key)
    requires HasCounters(prev) && HasCounters(now) && Ds(prev, now) != 0
    requires IsCalculated(prev, now, r) && DerivedBy(k, NUM_CHAN)
    ensures k in r && r[k] == DerivedEntry(k, Ds(prev, now), now, prev)
  {
  }

  /** '_pw' and '_nw' are ints that add up to the average absolute power, daws // ds. */
  lemma PowerSum(ds: int, c: Counts, before: Counts)
    requires ds != 0
    ensures PowerValue(ChPw, ds, c, before).Int? && PowerValue(ChNw, ds, c, before).Int?
    ensures PowerValue(ChPw, ds, c, before).i + PowerValue(ChNw, ds, c, before).i == Counters.FloorDiv(Daws(c, before), ds)
  {
  }

  /**
   * In a packet calculate has filled in, channel x's '_pw' and '_nw' add up
   * to the absolute watt-seconds since the previous packet divided (floor)
   * by the elapsed seconds.
   */
  lemma CalculatedPower(prev: Packet, now: Packet, r: Packet, x: nat)
    requires HasCounters(prev) && HasCounters(now) && Ds(prev, now) != 0
    requires FirstDrop(prev, now, 1).None? && IsCalculated(prev, now, r) && 1 <= x <= NUM_CHAN
    ensures Indexed(ChPw, x) in r && Indexed(ChNw, x) in r
    ensures var pw, nw := r[Indexed(ChPw, x)], r[Indexed(ChNw, x)];
      pw.Int? && nw.Int? && pw.i + nw.i == Counters.FloorDiv(Aws(now, x) - Aws(prev, x), Ds(prev, now))
  {
    NoDropNoWrap(prev, now, x);
    CalculatedAt(prev, now, r, Indexed(ChPw, x));
    CalculatedAt(prev, now, r, Indexed(ChNw, x));
    PowerSum(Ds(prev, now), CountsOf(now, x), CountsOf(prev, x));
  }

  /**
   * An energy entry of a packet calculate has filled in depends on the
   * counters only, not on the interval: for '_wh' and '_dwh' of channel x
   * these are (aws - 2*pws)/3600 of this packet and its change since the
   * previous one (EnergySplit).
   */
  lemma CalculatedEnergy(prev: Packet, now: Packet, r: Packet, k: Key)
    requires HasCounters(prev) && HasCounters(now) && Ds(prev, now) != 0
    requires IsCalculated(prev, now, r) && DerivedBy(k, NUM_CHAN) && IsEnergy(k.template)
    ensures k in r && r[k] == EnergyValue(k.template, CountsOf(now, k.index), CountsOf(prev, k.index))
  {
    CalculatedAt(prev, now, r, k);
  }

  /** calculate keeps the counters it derives from: channel x's '_aws' and '_pws' are the packet's own. */
  lemma CalculatedKeepsCounters(prev: Packet, now: Packet, r: Packet, x: nat)
    requires HasCounters(prev) && HasCounters(now) && Ds(prev, now) != 0
    requires IsCalculated(prev, now, r) && 1 <= x <= NUM_CHAN
    ensures HasCounters(r) && CountsOf(r, x) == CountsOf(now, x) && r[Secs] == now[Secs]
  {
    assert !DerivedBy(Secs, NUM_CHAN);
    forall y: nat | 1 <= y <= NUM_CHAN
      ensures r[Indexed(ChAws, y)] == now[Indexed(ChAws, y)] && r[Indexed(ChPws, y)] == now[Indexed(ChPws, y)]
    {
      assert !DerivedBy(Indexed(ChAws, y), NUM_CHAN) && !DerivedBy(Indexed(ChPws, y), NUM_CHAN);
    }
  }

  /** What calculate promises pins the dict down: two dicts that both meet it are equal. */
  lemma CalculatedUnique(prev: Packet, now: Packet, r1: Packet, r2: Packet)
    requires HasCounters(prev) && HasCounters(now) && Ds(prev, now) != 0
    requires IsCalculated(prev, now, r1) && IsCalculated(prev, now, r2)
    ensures r1 == r2
  {
    forall k | k in r1
      ensures k in r2 && r1[k] == r2[k]
    {
    }
  }
}
