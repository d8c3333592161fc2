# GEM packet pipeline, modelled in Dafny

This project models the byte-level packet pipeline of the weewx drivers for the
Brultech GreenEye Monitor (GEM). The pipeline appears in two revisions of the
driver. The model keeps them side by side, in separate modules, and proves
where they agree.

- **bin/user/brultech.py**, the newer revision:
  - the packet utilities `unpack`, `extract_short`, `extract_seq`,
    `_mktemperature` and `_calc_secs`;
  - the integrity checks of `BTBase` and `get_packet`;
  - the fixed-offset decoders of the BIN48-NET packet (format 5, 619 bytes)
    and the BIN48-NET-TIME packet (format 4, 625 bytes).
- **bin/weepwr/gem_driver.py**, the older revision:
  - its `reduce`-based `unpack` and its `extract_seq`;
  - the one-deep history wrapper `GenWithDelay`, including what an exception from
    `calculate` or from the wrapped generator leaves behind, and the loop of
    `genLoopPackets` that iterates it;
  - the checks and `get_buffer_from`/`get_packet_from` of `GEMBase`;
  - the decoders of `GEM48PBinary` and `GEM48PDBinary`;
  - the counter arithmetic of `_calc_pe` and `calculate`, which derive
    per-channel power and energy from two consecutive packets;
  - the consecutive-I/O-error retry counter of `GEM.gen_packets`.
- **bin/weepwr/__init__.py**: its exception classes become the `Weepwr.GemError`
  datatype. `Weepwr.IsIOError` says which errors derive from `WeePwrIOError`.

Modules:

| module | models |
|---|---|
| `Wrappers` | Option, Result and Outcome: raising an exception becomes a `Failure`/`Fail` value; `Successes` keeps the values of the successful results |
| `Bytes` | bytes, the little-endian value of a buffer, Python slicing |
| `Frame` | the three integrity conditions both revisions test |
| `Counters` | the counter moduli, wraparound deltas, Python floor division |
| `Decimal` | `'%d'` and `'%0Nd'` formatting |
| `Calendar` | `calendar.timegm` |
| `Packets` | packet dicts as maps from keys to values; the dict `extract_seq` builds |
| `BrultechUtil`, `BrultechPackets` | bin/user/brultech.py |
| `Weepwr` | bin/weepwr/__init__.py |
| `GemUtil`, `GemPackets`, `GemDerivation`, `GemDriver` | bin/weepwr/gem_driver.py |

How Python's data is represented:

- **Packets:** a packet is a `map<Key, Value>`.
  - A key built from a `'%d'` template, such as `'ch%d_aws' % 3`, is `Indexed(ChAws, 3)`.
  - A value is an `Int`, a `Text`, or a `Ratio(num, den)`. A `Ratio` holds a float exactly: volts/10, temperature/2, watt-hours/3600, interval/60.
- **Dict mutation:** `calculate` updates its `now` dict in place. The model passes it as a `Packets.PacketDict` object whose `fields` the methods reassign.
- **Loops:** the loops of the source are `method`s with loop invariants, each proved against a function that specifies it. These include:
  - `unpack` and `extract_seq`;
  - the temperature loop;
  - the channel loops of `calculate`;
  - the retry loop of `gen_packets`.
- **Division:** Python 2's `/` on two ints is floor division (`Counters.FloorDiv`).

The model makes three modelling choices:

- **Zero-second interval:** when `_calc_secs` gives 0, the first division in `_calc_pe` raises `ZeroDivisionError` before anything is written. `GemDerivation.Calculate` returns this as the `ZeroDivision` error and leaves the dict unchanged. It does not require a non-zero interval of its callers.
- **Invalid month:** an embedded month outside 1..12 makes `calendar.timegm` raise `ValueError`. Both decoders return this as an error.
- **Counter reset versus wraparound:** `calculate` raises `CounterResetError` whenever an absolute counter went down. So the `_aws` wraparound branch of `_calc_pe` is never taken from `calculate` (`GemDerivation.NoDropNoWrap`). Only the polarized counter can still be seen wrapping.

## Model

| member | source | states |
|---|---|---|
| Bytes.LittleEndian | bin/user/brultech.py:473-479 | the value of an n-byte buffer is below 256^n |
| Bytes.DecodeEncodeLE | bin/user/brultech.py:473-479 | decoding the n-byte encoding of any v < 256^n gives back v |
| Bytes.EncodeDecodeLE | bin/user/brultech.py:473-479 | encoding a decoded buffer gives back the buffer |
| Bytes.LittleEndianInjective | bin/user/brultech.py:473-479 | two buffers of one width with the same value are equal |
| Bytes.LittleEndianExamples | bin/user/brultech.py:473-479 | [0x01,0x00] is 1, [0x00,0x01] is 256, five 0xFF bytes are 2^40-1 |
| Bytes.Pow2Bytes | bin/weepwr/gem_driver.py:236 | the shift `1<<(8*i)` is 256^i |
| Frame.Seal | bin/user/brultech.py:299-303 | a body followed by its checksum byte passes the checksum test |
| Frame.ChecksumOkIffSealed | bin/user/brultech.py:299-303 | a buffer passes the checksum test exactly when it is the sealed form of its body |
| Frame.ByteSumUpdate | bin/user/brultech.py:301 | replacing one byte changes `sum` by the difference of the two values |
| Frame.ChecksumDetectsSingleByteChange | bin/user/brultech.py:299-303 | a passing buffer fails once any one byte but the checksum is changed |
| Counters.WrapDelta | bin/weepwr/gem_driver.py:377-385 | new-old, plus the modulus when the counter went down; for in-range readings the delta is in [0, modulus) and 0 exactly when the readings are equal |
| Counters.WrapDeltaModular | bin/weepwr/gem_driver.py:377-385 | for in-range readings, the delta is (new-old) mod the modulus, and old + delta wraps to new |
| Counters.FloorDivBounds | bin/weepwr/gem_driver.py:388-389 | `a / b` on ints rounds toward negative infinity for either sign of b |
| Counters.WrapDeltaExample | bin/weepwr/gem_driver.py:377-381 | a counter that wrapped from 2^40-10 to 5 advanced by 15 |
| Decimal.Digits | bin/user/brultech.py:339 | `'%d'` of n is a digit string without leading zeros whose value is n |
| Decimal.DigitsLength | bin/user/brultech.py:339 | n takes at most k digits exactly when n < 10^k |
| Decimal.ZeroPad | bin/user/brultech.py:339 | `'%0Nd'` of n is a digit string whose value is n and whose length is the larger of N and the digit count |
| Decimal.ZeroPadWidth | bin/user/brultech.py:339 | a number below 10^N is padded to exactly N characters |
| Calendar.TimegmCountsSeconds | bin/user/brultech.py:368-370 | `calendar.timegm`'s ordinal arithmetic equals the count of days and seconds since 1970-01-01 UTC |
| Calendar.TimegmExample | bin/user/brultech.py:368-370 | 2000-01-01 00:00:00 is 946684800 |
| Packets.SeqFieldsKeyOf | bin/user/brultech.py:487-492 | the dict `extract_seq` builds has exactly the keys tag % 1 .. tag % N |
| Packets.SeqFieldsValues | bin/user/brultech.py:487-492 | entry tag % j is `unpack` of the (j-1)-th nbyte-wide field |
| Packets.SeqFieldsAt | bin/user/brultech.py:487-492 | on a long enough buffer, entry tag % j is the value of the nbyte bytes at off + (j-1)*nbyte |
| Packets.SerialTextLayout | bin/user/brultech.py:339 | `'%03d%05d'` of a unit id < 1000 and serial < 100000 is 8 digits that read back both numbers |
| BrultechUtil.Unpack | bin/user/brultech.py:473-479 | the shift-and-add loop computes the little-endian value |
| BrultechUtil.ExtractShort | bin/user/brultech.py:482-484 | the first two bytes, most significant first; below 65536 |
| BrultechUtil.ExtractShortRoundTrip | bin/user/brultech.py:482-484 | encoding and `extract_short` are inverse on 16-bit values and on 2-byte buffers |
| BrultechUtil.ExtractSeq | bin/user/brultech.py:487-492 | the loop builds the dict of N little-endian fields |
| BrultechUtil.MkTemperature | bin/user/brultech.py:496-504 | the low 15 bits are the magnitude in half-degrees; bit 7 of the second byte negates it |
| BrultechUtil.TemperatureBits | bin/user/brultech.py:501-502 | the mask, shift and or of `_mktemperature` are that arithmetic |
| BrultechUtil.MkTemperatureRoundTrip | bin/user/brultech.py:496-504 | every reading of magnitude below 2^15 survives encoding and decoding; a negative result has the sign bit set |
| BrultechUtil.MkTemperatureExamples | bin/user/brultech.py:496-504 | 0x64,0x00 is +50 degrees and 0x64,0x80 is -50 degrees |
| BrultechUtil.CalcSecs | bin/user/brultech.py:507-512 | new-old secs, plus 2^24 when the counter went down; for in-range counters in [0, 2^24), 0 exactly when equal |
| BrultechPackets.CheckEnds | bin/user/brultech.py:294-297 | passes exactly when bytes 0,1 and -2,-3 hold the markers; otherwise a header/footer error |
| BrultechPackets.CheckChecksum | bin/user/brultech.py:299-303 | passes exactly when the checksum holds; otherwise a checksum error |
| BrultechPackets.CheckId | bin/user/brultech.py:305-307 | passes exactly when byte 2 is packet ID 5; otherwise an ID error naming the byte |
| BrultechPackets.Check | bin/user/brultech.py:280-283 | the three checks in order; passes iff all hold, and the first failing check decides the error |
| BrultechPackets.SealedPasses | bin/user/brultech.py:294-307 | a body with markers and ID in place, sealed with its checksum, passes every check |
| BrultechPackets.CorruptionRejected | bin/user/brultech.py:294-307 | a passing buffer with any one byte but the checksum changed is rejected |
| BrultechPackets.HeaderKeys | bin/user/brultech.py:321-328 | the literal dict holds dateTime, usUnits, volts, ser_no, unit_id and secs |
| BrultechPackets.HeaderValues | bin/user/brultech.py:321-328 | the values of those entries, byte by byte |
| BrultechPackets.TemperaturesEntry | bin/user/brultech.py:346-350 | sensor j has an entry exactly when its reading is within 255 degrees, and the entry is half the reading |
| BrultechPackets.NetLookup | bin/user/brultech.py:320-352 | the merged parts have disjoint keys, so each entry is that of the part holding its key |
| BrultechPackets.NetScalars | bin/user/brultech.py:321-328 | volts in tenths from bytes 3-4 big-endian, ser_no from 485-486, unit_id byte 488, secs from 585-587 little-endian |
| BrultechPackets.NetSerial | bin/user/brultech.py:338-339 | serial is 8 digits reading back unit_id and ser_no |
| BrultechPackets.NetEnergies | bin/user/brultech.py:330-336 | ch%d_a_energy and ch%d_p_energy are the 5-byte little-endian counters at offsets 5 and 245 (below 2^40 by `Bytes.LittleEndian`'s bound) |
| BrultechPackets.NetPulses | bin/user/brultech.py:341-343 | p%d_count are the 3-byte counters from offset 588 |
| BrultechPackets.NetTemperatures | bin/user/brultech.py:345-350 | t%d_temperature is present iff the half-degree reading is within ±510, and is then half of it |
| BrultechPackets.NetKeys | bin/user/brultech.py:320-352 | the BIN48-NET packet holds exactly these keys |
| BrultechPackets.EmbeddedTime | bin/user/brultech.py:367-370 | time_created is the epoch seconds of (byte616+2000, bytes 617-621) in UTC; a month outside 1..12 is an error |
| BrultechPackets.ExtractNet | bin/user/brultech.py:320-352 | the assembling code builds the BIN48-NET dict |
| BrultechPackets.AddTemperatures | bin/user/brultech.py:346-350 | the sensor loop adds exactly the in-range temperatures |
| BrultechPackets.ExtractNetTime | bin/user/brultech.py:363-372 | the BIN48-NET dict plus time_created, or the month error |
| BrultechPackets.GetPacket | bin/user/brultech.py:275-287 | a packet comes out iff all three checks pass (and the month is valid); otherwise the first failing check's error |
| GemUtil.ReduceSum | bin/weepwr/gem_driver.py:234-237 | folding from position i adds the tail's value times 256^i |
| GemUtil.Unpack | bin/weepwr/gem_driver.py:234-237 | the reduce-based unpack is the same little-endian value as the loop version |
| GemUtil.ExtractSeq | bin/weepwr/gem_driver.py:243-248 | the loop builds the dict of N little-endian fields |
| GemUtil.Pairs | bin/weepwr/gem_driver.py:250-272 | n+1 items give n results, result i being func(x_i, x_{i+1}) |
| GemUtil.PairsSnoc | bin/weepwr/gem_driver.py:293-296 | one more item adds func(last, new) |
| GemUtil.PairsExample | bin/weepwr/gem_driver.py:254-272 | range(5) gives (0,1), (1,2), (2,3), (3,4) |
| GemUtil.Held | bin/weepwr/gem_driver.py:288-296 | `previous` exists exactly once an item has been read |
| GemUtil.Outs | bin/weepwr/gem_driver.py:288-296 | n+1 items read give n calls of func |
| GemUtil.OutsSnoc | bin/weepwr/gem_driver.py:293-296 | one more item calls func on the held item and the new one; the new item is held next only if func returned |
| GemUtil.OutsWithoutFailures | bin/weepwr/gem_driver.py:250-296 | when no call of func raises, the results are exactly func of each neighbouring pair, as the class doc promises |
| GemUtil.OutsPrefix | bin/weepwr/gem_driver.py:293-296 | reading more items only appends to the results so far |
| GemUtil.FailureKeepsPrevious | bin/weepwr/gem_driver.py:295 | an item on which func raises is dropped: the next item is paired with the one before it |
| GemUtil.FirstFailure | bin/weepwr/gem_driver.py:557-562 | the first call of func that raises, or none |
| GemUtil.FuncFailureFirst | bin/weepwr/gem_driver.py:293-296 | the first raise of func seen while reading is the first failure over the whole item sequence |
| GemUtil.GenWithDelay.constructor | bin/weepwr/gem_driver.py:274-281 | starts up with nothing consumed |
| GemUtil.GenWithDelay.Next | bin/weepwr/gem_driver.py:286-296 | the first call reads two items and returns or raises func of them; later calls pair the held item with the next; at the end, the generator's exception once and then StopIteration; an exception on the first read leaves starting_up set |
| GemUtil.GenWithDelay.Step | bin/weepwr/gem_driver.py:293-296 | one more item is read and func(previous, item) returned or raised; the item read becomes `previous` only if func returned |
| GemUtil.LoopPackets | bin/weepwr/gem_driver.py:557-562 | genLoopPackets yields func's results up to its first raise, which ends it; with no raise, every result, then whatever ended the generator: its own exception, or nothing for StopIteration |
| GemPackets.CheckEnds | bin/weepwr/gem_driver.py:350-352 | passes exactly when the markers are in place; otherwise EndError |
| GemPackets.CheckChecksum | bin/weepwr/gem_driver.py:354-357 | passes exactly when the checksum holds; otherwise CheckSumError |
| GemPackets.CheckId | bin/weepwr/gem_driver.py:359-361 | passes exactly when byte 2 is 5; otherwise EndError naming the byte |
| GemPackets.GetBufferFrom | bin/weepwr/gem_driver.py:324-344 | a read error propagates; the buffer is returned iff ends, checksum and ID pass, the first failing check deciding the error |
| GemPackets.CorruptionRejected | bin/weepwr/gem_driver.py:339-361 | a passing buffer with any one byte but the checksum changed is rejected |
| GemPackets.GemHeaderValues | bin/weepwr/gem_driver.py:445-448 | packet_id 5, dateTime, volts in tenths from bytes 3-4 |
| GemPackets.GemScalarKeys | bin/weepwr/gem_driver.py:458-468 | ser_no, unit_id, serial and secs |
| GemPackets.GemScalarValues | bin/weepwr/gem_driver.py:458-468 | their values, byte by byte |
| GemPackets.GemScalarSerial | bin/weepwr/gem_driver.py:464-465 | serial is '%03d%05d' of unit_id and ser_no |
| GemPackets.GemLookup | bin/weepwr/gem_driver.py:443-478 | the merged parts have disjoint keys, so each entry is that of the part holding its key |
| GemPackets.GemScalarFields | bin/weepwr/gem_driver.py:443-468 | the scalar entries of the packet and their bytes |
| GemPackets.GemSerial | bin/weepwr/gem_driver.py:464-465 | serial is 8 digits reading back unit_id and ser_no |
| GemPackets.GemEnergies | bin/weepwr/gem_driver.py:450-456 | ch%d_aws and ch%d_pws are the 5-byte counters at offsets 5 and 245 |
| GemPackets.GemPulses | bin/weepwr/gem_driver.py:470-472 | p%d are the 3-byte counters from offset 588 |
| GemPackets.GemTemperatures | bin/weepwr/gem_driver.py:474-476 | t%d is the raw unsigned 2-byte value, with no sign bit and no range filter |
| GemPackets.GemKeys | bin/weepwr/gem_driver.py:443-478 | the GEM48PBinary packet holds exactly these keys |
| GemPackets.ExtractPacketFrom | bin/weepwr/gem_driver.py:443-478 | the assembling code builds the GEM48PBinary dict |
| GemPackets.GemTime | bin/weepwr/gem_driver.py:492-495 | time_created is the epoch seconds of the embedded time; a month outside 1..12 is an error |
| GemPackets.ExtractTimePacketFrom | bin/weepwr/gem_driver.py:487-497 | the GEM48PBinary dict plus time_created, or the month error |
| GemPackets.GetPacketFrom | bin/weepwr/gem_driver.py:317-322 | a packet comes out iff the read succeeded, all checks pass and the month is valid; a failing check's error propagates |
| GemPackets.RevisionsAgreeOnEnergy | bin/weepwr/gem_driver.py:450-456 | both revisions decode the same counters from one buffer |
| GemPackets.RevisionsAgreeOnScalars | bin/weepwr/gem_driver.py:448-468 | both revisions decode volts, ser_no, unit_id, serial and secs alike |
| GemDerivation.CalcPe | bin/weepwr/gem_driver.py:374-408 | _calc_pe adds the seven derived entries of the channel to the dict and changes nothing else |
| GemDerivation.CalcPower | bin/weepwr/gem_driver.py:377-398 | the deltas through one wraparound, then the three power entries, with the sign flip |
| GemDerivation.CalcEnergy | bin/weepwr/gem_driver.py:400-408 | the four watt-hour entries, from the counters of now and prev |
| GemDerivation.PowerKeepsCounters | bin/weepwr/gem_driver.py:387-398 | writing the powers leaves every counter as it was |
| GemDerivation.WattsEntries | bin/weepwr/gem_driver.py:387-398 | the power entries are exactly _w, _pw and _nw of the channel |
| GemDerivation.WattHoursEntries | bin/weepwr/gem_driver.py:400-408 | the energy entries are exactly _pwh, _nwh, _wh and _dwh of the channel |
| GemDerivation.PeFieldsEntries | bin/weepwr/gem_driver.py:374-408 | _calc_pe writes exactly the seven derived keys of the channel |
| GemDerivation.FirstDrop | bin/weepwr/gem_driver.py:416-421 | the first channel whose absolute counter went down; none exactly when no counter went down |
| GemDerivation.CheckResets | bin/weepwr/gem_driver.py:416-421 | raises CounterResetError with channel, old and new value for the first drop, and nothing otherwise |
| GemDerivation.Calculate | bin/weepwr/gem_driver.py:411-431 | a counter drop or a zero interval raises with the dict unchanged; otherwise the dict holds its own entries, the derived entries of every channel and the interval |
| GemDerivation.DeriveChannels | bin/weepwr/gem_driver.py:424-426 | after channels 1..n the dict holds its own entries plus their derived entries |
| GemDerivation.DeriveOne | bin/weepwr/gem_driver.py:424-426 | one more channel extends that state by one channel |
| GemDerivation.DerivedKeepsCounters | bin/weepwr/gem_driver.py:424-426 | the channel loop never changes a counter or secs |
| GemDerivation.DerivedStep | bin/weepwr/gem_driver.py:424-426 | adding channel x's entries to the state after 1..x-1 gives the state after 1..x |
| GemDerivation.CalculatedFromDerived | bin/weepwr/gem_driver.py:428-431 | adding the interval to the loop's result is what calculate returns |
| GemDerivation.PowerSigns | bin/weepwr/gem_driver.py:387-398 | for a positive interval and dpws <= daws: _pw, _nw >= 0, their sum is abs(_w), and _w < 0 exactly when _pw = 0 < _nw |
| GemDerivation.AveragePower | bin/weepwr/gem_driver.py:387-388 | ds times the absolute power is at most the counter's advance mod 2^40, and ds times one more exceeds it |
| GemDerivation.EnergySplit | bin/weepwr/gem_driver.py:400-408 | _pwh + _nwh = aws/3600, _wh = _pwh - _nwh, _dwh = change of _wh since prev |
| GemDerivation.DwhTelescopes | bin/weepwr/gem_driver.py:405-408 | summing _dwh over a run of packets gives the change of _wh from first to last |
| GemDerivation.NoDropNoWrap | bin/weepwr/gem_driver.py:377-380 | after the reset check has passed, daws is plain new-old: the aws wraparound branch is never taken |
| GemDerivation.CalculatedAt | bin/weepwr/gem_driver.py:424-431 | each derived entry of the result is present and holds its channel's value |
| GemDerivation.PowerSum | bin/weepwr/gem_driver.py:387-393 | _pw and _nw are ints adding up to daws // ds |
| GemDerivation.CalculatedPower | bin/weepwr/gem_driver.py:411-431 | in a calculated packet, _pw + _nw of channel x is (aws now - aws prev) // ds |
| GemDerivation.CalculatedEnergy | bin/weepwr/gem_driver.py:400-408 | an energy entry of a calculated packet depends only on the counters of now and prev |
| GemDerivation.CalculatedKeepsCounters | bin/weepwr/gem_driver.py:411-431 | calculate keeps secs and every counter of the packet |
| GemDerivation.CalculatedUnique | bin/weepwr/gem_driver.py:411-431 | the contract of calculate determines the resulting dict |
| GemDriver.FirstStop | bin/weepwr/gem_driver.py:540-555 | the first fetch that ends the generator: a non-I/O error, or the I/O error that makes max_tries in a row |
| GemDriver.GenPackets | bin/weepwr/gem_driver.py:540-555 | yields every packet fetched before that fetch and raises its error, or yields every packet if no fetch ends it |
| GemDriver.SuccessResets | bin/weepwr/gem_driver.py:546-548 | a packet resets the count: the next I/O error is try #1 again |
| GemDriver.StreakRun | bin/weepwr/gem_driver.py:549-555 | the count of tries is the length of the run of I/O errors at the end |
| GemDriver.GivesUpExactly | bin/weepwr/gem_driver.py:553-555 | an I/O error is re-raised exactly when it closes max_tries consecutive I/O errors, and swallowed otherwise |
| GemDriver.GivesUpAfterMaxTries | bin/weepwr/gem_driver.py:553-554 | max_tries I/O errors in a row end the generator by the last of them |
| GemDriver.OtherErrorsPropagate | bin/weepwr/gem_driver.py:545-549 | an error that is not a WeePwrIOError ends the generator where it occurs |
| GemDriver.SuccessesFromFetches | bin/weepwr/gem_driver.py:546-547 | every yielded packet is one a fetch gave |

## Left out

- Socket I/O is not modelled, in either revision. This covers the `SocketConnection` methods, `read_with_prompt`, `write_with_response` and their sleeps. The buffer a read returns, or the error it raises, is a parameter.
- The wall clock is a parameter: `dateTime`, which comes from `time.time()`. `setTime` is not modelled.
- Host glue is not modelled: `loader`, `source_factory`, `globals()[packet_type]` dispatch, the drivers' `setup` command sequencing, the newer revision's polling `genLoopPackets` (bin/user/brultech.py:429-435, a get-and-sleep loop), and the `^^^SYS...` command strings.
- Floats are exact ratios. The float rounding of volts/10, temperature*0.5, watt-hours/3600 and interval/60 is not modelled.
- `syslog` messages are not modelled: the wraparound warnings of `_calc_pe` and the error log of `gen_packets`.
- BrultechPackets.GetPacket: requires a buffer of at least 3 bytes, and exactly packet_length bytes when it passes the three checks. The socket `read` (bin/user/brultech.py:212-231) subtracts the whole buffer from `remaining` on each pass, so it can return a short buffer without raising. Such a buffer goes through the checks, and the model covers that path: it is almost always rejected with the header/footer error. Not modelled: the IndexError `_check_ends` raises on a buffer under 3 bytes, and the decoding of a short buffer that passes all three checks.
- GemPackets.GetPacketFrom: requires a successful read of at least 3 bytes, and exactly packet_length bytes when it passes the three checks. The socket `read` (bin/weepwr/gem_driver.py:198-217) subtracts the whole buffer from `_remaining` on each pass, so it can return a short buffer without raising. Such a buffer goes through the checks, and the model covers that path: it is almost always rejected with EndError, which `gen_packets` retries. Not modelled: the IndexError on a buffer under 3 bytes, and the decoding of a short buffer that passes all three checks.
- GemDerivation.Calculate: requires 'secs' and every channel's '_aws' and '_pws' to be ints in both packets. The KeyError of a missing key is not modelled.
- GemDerivation.CalcPe: requires a non-zero interval. Its caller `Calculate` returns the ZeroDivisionError before calling it.
- GemDriver.GenPackets: the endless generator becomes a finite run of fetch outcomes. The result says what was yielded and raised while that run was consumed.
- GemUtil.GenWithDelay.Next: StopIteration from the wrapped generator becomes a `None` result. An exception from `func` or from the generator becomes a `Failure` result, and the object stays usable. The recursive self-call after the first read is a call of `Step`, the branch that call always takes.
- GemUtil.GenWithDelay: the wrapped generator is a fixed list of items followed by one final outcome, StopIteration or an exception. A generator whose items depend on how it is driven is not modelled. `func` is a pure function: that `calculate` also adds the derived entries to `now` in place is modelled separately, by `GemDerivation.Calculate`.
- The older revision's `extract_short` (bin/weepwr/gem_driver.py:239-241) and `_calc_secs` (bin/weepwr/gem_driver.py:364-368) have the same text as the newer revision's. Each is modelled once, by `BrultechUtil.ExtractShort` and `BrultechUtil.CalcSecs`.
- `BYTE4_COUNTER_MAX` is declared but never used by the modelled code.
