/**
 The listen-before-talk admission (loragw_lbt.c) and the millisecond rounding it relies on
 (`lgw_time_on_air` in loragw_hal.c).
 */
module ListenBeforeTalk {
  import opened CarrierSense
  import opened NativeTypes
  import opened TimeOnAir
  import opened Transmission
  import opened Wrappers

  const FREQ_MARGIN_HZ: int := 10000
  const SENSE_LEAD_US: int := 1500

  datatype LbtChannel = LbtChannel(enable: bool, freqHz: u32, bandwidth: u8, scanTimeUs: int, transmitTimeMs: u16,
      rssiTargetDbm: i8)

  datatype LbtConf = LbtConf(rssiTarget: i8, rssiOffset: i8, channels: seq<LbtChannel>)

  predicate IsEqualFreq(a: u32, b: u32) {
    (if a >= b then a - b else b - a) <= FREQ_MARGIN_HZ
  }

  /** A 62.5 kHz transmission may also use a 125 kHz channel. */
  predicate IsMatchingBw(tx: u8, lbt: u8) {
    tx == lbt || (tx == BW_62K5HZ && lbt == BW_125KHZ)
  }

  predicate Covers(c: LbtChannel, freqHz: u32, bw: u8) {
    IsEqualFreq(freqHz, c.freqHz) && IsMatchingBw(bw, c.bandwidth)
  }

  /** Within 10 kHz, and with the same bandwidth or 62.5 kHz (3) on a 125 kHz (4) channel. */
  predicate Matches(c: LbtChannel, freqHz: u32, bw: u8) {
    c.freqHz - 10000 <= freqHz <= c.freqHz + 10000 && (bw == c.bandwidth || (bw == 3 && c.bandwidth == 4))
  }

  function LoraUs(pkt: TxPacket): u32 {
    PacketTimeOnAir(pkt.bandwidth, pkt.datarate % 0x100, pkt.coderate, pkt.preamble, pkt.noHeader, pkt.noCrc,
                    pkt.size % 0x100)
  }

  function FskMs(pkt: TxPacket, syncWordSize: u8): real
    requires pkt.datarate > 0
  {
    8.0 * (pkt.preamble + FskBytes(pkt, syncWordSize)) as real / pkt.datarate as real * 1000.0
  }

  /** `lgw_time_on_air` in milliseconds: rounded for LoRa, floor plus one for FSK, 0 for anything else. */
  function TimeOnAirMs(pkt: TxPacket, syncWordSize: u8): int
    requires Sendable(pkt)
  {
    if pkt.modulation == MOD_LORA then (LoraUs(pkt) as real / 1000.0 + 0.5).Floor
    else if pkt.modulation == MOD_FSK then FskMs(pkt, syncWordSize).Floor + 1
    else 0
  }

  /** The two duration checks, in uint32_t arithmetic. */
  predicate DurationAllowed(transmitTimeMs: u16, toaMs: int) {
    && transmitTimeMs * 1000 > SENSE_LEAD_US
    && toaMs * 1000 % 0x1_0000_0000 <= (transmitTimeMs * 1000 - SENSE_LEAD_US) % 0x1_0000_0000
  }

  /** The threshold before the radio's offset is added; a target of 0 stands for the common one. */
  function TargetDbm(conf: LbtConf, c: LbtChannel): i8 {
    if !c.enable then PERMIT_ALL_DBM else if c.rssiTargetDbm == 0 then conf.rssiTarget else c.rssiTargetDbm
  }

  /** `is_lbt_channel`: the first channel that covers the transmission, or -1. */
  method IsLbtChannel(conf: LbtConf, freqHz: u32, bw: u8) returns (found: int)
    ensures found == -1 || 0 <= found < |conf.channels|
    ensures found == -1 ==> forall i :: 0 <= i < |conf.channels| ==> !Covers(conf.channels[i], freqHz, bw)
    ensures found != -1 ==> Covers(conf.channels[found], freqHz, bw)
    ensures forall i :: 0 <= i < found ==> !Covers(conf.channels[i], freqHz, bw)
    ensures found != -1 ==> Matches(conf.channels[found], freqHz, bw)
    ensures forall i :: 0 <= i < (if found == -1 then |conf.channels| else found) ==>
      !Matches(conf.channels[i], freqHz, bw)
  {
    found := -1;
    for i := 0 to |conf.channels|
      invariant found == -1
      invariant forall j :: 0 <= j < i ==> !Covers(conf.channels[j], freqHz, bw)
    {
      if Covers(conf.channels[i], freqHz, bw) {
        found := i;
        break;
      }
    }
  }

  /** The radio commands succeed or fail as the parameters say. */
  class Lbt {
    var scanActive: bool

    constructor ()
      ensures !scanActive
    {
      scanActive := false;
    }

    /** `lgw_lbt_start`: err is 0 or -1; on success `scan` is what was written to the SX1261. */
    method Start(conf: LbtConf, pkt: TxPacket, syncWordSize: u8, rxParamsOk: bool, scanOk: bool)
      returns (err: int, channel: int, scan: Option<Scan>)
      requires Sendable(pkt)
      modifies this
      ensures err == 0 || err == -1
      ensures scanActive == (old(scanActive) || err == 0)
      ensures err == 0 ==>
        && 0 <= channel < |conf.channels| && Covers(conf.channels[channel], pkt.freqHz, pkt.bandwidth)
        && DurationAllowed(conf.channels[channel].transmitTimeMs, TimeOnAirMs(pkt, syncWordSize))
        && conf.channels[channel].scanTimeUs in {SCAN_TIME_128_US, SCAN_TIME_5000_US}
        && scan == Some(Scan(if conf.channels[channel].scanTimeUs == SCAN_TIME_128_US then 24 else 715,
                             Armed(TargetDbm(conf, conf.channels[channel]), conf.rssiOffset)))
      ensures err == 0 ==>
        var c := conf.channels[channel];
        && Matches(c, pkt.freqHz, pkt.bandwidth) && c.scanTimeUs in {128, 5000}
        && scan == Some(Scan(if c.scanTimeUs == 128 then 24 else 715,
                             Armed(if !c.enable then 127 else if c.rssiTargetDbm != 0 then c.rssiTargetDbm
                                   else conf.rssiTarget, conf.rssiOffset)))
      ensures -1 <= channel < |conf.channels|
      ensures forall i :: 0 <= i < channel ==> !Covers(conf.channels[i], pkt.freqHz, pkt.bandwidth)
      ensures err == -1 && rxParamsOk && scanOk && channel >= 0
        ==> !DurationAllowed(conf.channels[channel].transmitTimeMs, TimeOnAirMs(pkt, syncWordSize))
            || conf.channels[channel].scanTimeUs !in {SCAN_TIME_128_US, SCAN_TIME_5000_US}
      ensures err == -1 ==> scan == None
      ensures channel == -1 ==> err == -1
      ensures channel == -1 ==>
        forall i :: 0 <= i < |conf.channels| ==> !Covers(conf.channels[i], pkt.freqHz, pkt.bandwidth)
    {
      err, scan := -1, None;
      channel := IsLbtChannel(conf, pkt.freqHz, pkt.bandwidth);
      if channel == -1 {
        return;
      }
      var chan := conf.channels[channel];
      if chan.transmitTimeMs * 1000 <= SENSE_LEAD_US {
        return;
      }
      var toaMs := TimeOnAirMs(pkt, syncWordSize);
      if toaMs * 1000 % 0x1_0000_0000 > (chan.transmitTimeMs * 1000 - SENSE_LEAD_US) % 0x1_0000_0000 {
        return;
      }
      if !rxParamsOk {
        return;
      }
      var target := PERMIT_ALL_DBM;
      if chan.enable {
        target := chan.rssiTargetDbm;
        if target == 0 {
          target := conf.rssiTarget;
        }
      }
      err, scan := StartScan(chan.scanTimeUs, ThresholdDbm(target, conf.rssiOffset), scanOk);
      if err == 0 {
        scanActive := true;
      }
    }
  }

  // ---------------------------------------------------------------- what the guard computes

  predicate LostDuration(pkt: TxPacket) {
    pkt.modulation == MOD_LORA && pkt.datarate < 0x100 && SymbolWraps(pkt.bandwidth, pkt.datarate)
  }

  /** No accepted modulation makes the guard's millisecond product wrap. */
  lemma NoWrapInGuard(pkt: TxPacket, syncWordSize: u8)
    requires Sendable(pkt)
    ensures 0 <= TimeOnAirMs(pkt, syncWordSize) * 1000 < 0x1_0000_0000
  {
    if pkt.modulation == MOD_LORA {
      assert pkt.datarate % 0x100 == pkt.datarate && pkt.size % 0x100 == pkt.size;
      FitsUint32(pkt.bandwidth, pkt.datarate, pkt.coderate, pkt.preamble, pkt.noHeader, pkt.noCrc, pkt.size);
    } else if pkt.modulation == MOD_FSK {
      FskBound((pkt.preamble + FskBytes(pkt, syncWordSize)) as real, pkt.datarate as real);
    }
  }

  /** Where that product does not wrap, the checks ask that the packet and the lead of sensing fit the channel's
      time. */
  lemma DurationAllowedIff(transmitTimeMs: u16, toaMs: int)
    requires 0 <= toaMs * 1000 < 0x1_0000_0000
    ensures DurationAllowed(transmitTimeMs, toaMs) <==> toaMs * 1000 + 1500 <= transmitTimeMs * 1000
  {
    var limit := transmitTimeMs * 1000 - 1500;
    if limit >= 0 {
      assert limit % 0x1_0000_0000 == limit;
    }
  }

  lemma FskBound(n: real, rate: real)
    requires 0.0 <= n <= 66050.0 && rate >= 500.0
    ensures 0.0 <= 8.0 * n / rate * 1000.0 <= 1056800.0
  {
    var q := 8.0 * n / rate;
    assert q * rate == 8.0 * n;
    assert q >= 0.0;
    assert q * rate >= q * 500.0;
  }

  // ---------------------------------------------------------------- sent against computed

  /** The payload symbols that the guard counts and the transmitter does not send. */
  function SavedSymbols(pkt: TxPacket): int
    requires SendableLora(pkt)
  {
    PayloadSymbols(pkt.bandwidth, pkt.datarate, pkt.coderate, pkt.noHeader, pkt.noCrc, pkt.size)
    - CeilDiv(PayloadBits(pkt.datarate, pkt.noHeader, pkt.noCrc, pkt.size),
              4 * (pkt.datarate - SentLdro(pkt.bandwidth, pkt.datarate))) * (pkt.coderate + 4)
  }

  /** The duration that the guard computes, before it is rounded to milliseconds. */
  function ComputedUs(pkt: TxPacket, syncWordSize: u8): real
    requires SendableLora(pkt) || SendableFsk(pkt)
  {
    if pkt.modulation == MOD_LORA then LoraUs(pkt) as real else FskMs(pkt, syncWordSize) * 1000.0
  }

  /** How much longer the transmission is: by the symbols or bytes added to the preamble, less what the transmitter
      saves by leaving out low data rate optimisation, or by the rounding of its bit clock. */
  function ExtraUs(pkt: TxPacket, syncWordSize: u8): real
    requires SendableLora(pkt) || SendableFsk(pkt)
  {
    if pkt.modulation == MOD_LORA then LoraExtraUs(pkt) as real else FskExtraUs(pkt, syncWordSize)
  }

  function LoraExtraUs(pkt: TxPacket): int
    requires SendableLora(pkt)
  {
    (ExtraPreamble(pkt) - SavedSymbols(pkt)) * SymbolUs(pkt.bandwidth, pkt.datarate)
  }

  function FskExtraUs(pkt: TxPacket, syncWordSize: u8): real
    requires SendableFsk(pkt)
  {
    var shorter := 1000000.0 / pkt.datarate as real - BitUs(pkt.datarate);
    8.0 * ExtraPreamble(pkt) as real * BitUs(pkt.datarate)
    - 8.0 * (pkt.preamble + FskBytes(pkt, syncWordSize)) as real * shorter
  }

  /** What rounding leaves between the computed duration and the smallest limit that the guard accepts for it. */
  function RoomUs(pkt: TxPacket, syncWordSize: u8): real
    requires SendableLora(pkt) || SendableFsk(pkt)
  {
    (TimeOnAirMs(pkt, syncWordSize) + 2) as real * 1000.0 - ComputedUs(pkt, syncWordSize)
  }

  lemma RoomBounds(pkt: TxPacket, syncWordSize: u8)
    requires SendableLora(pkt) || SendableFsk(pkt)
    ensures pkt.modulation == MOD_LORA ==> 1500.0 < RoomUs(pkt, syncWordSize) <= 2500.0
    ensures pkt.modulation == MOD_FSK ==> 2000.0 < RoomUs(pkt, syncWordSize) <= 3000.0
  {
  }

  lemma RoomLeft(pkt: TxPacket, syncWordSize: u8)
    requires SendableLora(pkt) || SendableFsk(pkt)
    ensures RoomUs(pkt, syncWordSize) > 1500.0
  {
    RoomBounds(pkt, syncWordSize);
  }

  /** The transmission lasts exactly that much longer than computed. */
  lemma SentIsComputedPlusExtra(pkt: TxPacket, syncWordSize: u8, carrierUs: real)
    requires (SendableLora(pkt) || SendableFsk(pkt)) && !LostDuration(pkt)
    ensures TrueUs(pkt, syncWordSize, carrierUs) == ComputedUs(pkt, syncWordSize) + ExtraUs(pkt, syncWordSize)
  {
    if pkt.modulation == MOD_LORA {
      LoraExtra(pkt);
    } else {
      FskSent(pkt, syncWordSize);
    }
  }

  lemma FskSent(pkt: TxPacket, syncWordSize: u8)
    requires SendableFsk(pkt)
    ensures 8.0 * (SentPreamble(pkt) + FskBytes(pkt, syncWordSize)) as real * BitUs(pkt.datarate)
         == FskMs(pkt, syncWordSize) * 1000.0 + FskExtraUs(pkt, syncWordSize)
  {
    FskExtra(SentPreamble(pkt) + FskBytes(pkt, syncWordSize), pkt.preamble + FskBytes(pkt, syncWordSize),
             ExtraPreamble(pkt), BitUs(pkt.datarate), pkt.datarate as real);
  }

  lemma FskExtra(sent: int, asked: int, extra: int, bit: real, rate: real)
    requires rate > 0.0 && sent == asked + extra
    ensures 8.0 * sent as real * bit
         == 8.0 * asked as real / rate * 1000.0 * 1000.0
            + (8.0 * extra as real * bit - 8.0 * asked as real * (1000000.0 / rate - bit))
  {
    var n, e := asked as real, extra as real;
    assert sent as real == n + e;
    FskReals(n, e, bit, rate);
  }

  lemma FskReals(n: real, e: real, bit: real, rate: real)
    requires rate > 0.0
    ensures 8.0 * (n + e) * bit
         == 8.0 * n / rate * 1000.0 * 1000.0 + (8.0 * e * bit - 8.0 * n * (1000000.0 / rate - bit))
  {
    assert 8.0 * n / rate * 1000.0 * 1000.0 == 8.0 * n * (1000000.0 / rate) by {
      var inv := 1.0 / rate;
      assert 8.0 * n / rate == 8.0 * n * inv && 1000000.0 / rate == 1000000.0 * inv;
    }
  }

  lemma LoraExtra(pkt: TxPacket)
    requires SendableLora(pkt) && !LostDuration(pkt)
    ensures Micros(SentSymbols(pkt), SymbolSeconds(pkt.bandwidth, pkt.datarate))
      == LoraUs(pkt) as real + LoraExtraUs(pkt) as real
  {
    LoraExtraOf(pkt, ExtraPreamble(pkt) - SavedSymbols(pkt), SymbolUs(pkt.bandwidth, pkt.datarate));
  }

  lemma LoraExtraOf(pkt: TxPacket, extra: int, us: int)
    requires SendableLora(pkt) && !LostDuration(pkt)
    requires extra == ExtraPreamble(pkt) - SavedSymbols(pkt) && us == SymbolUs(pkt.bandwidth, pkt.datarate)
    ensures Micros(SentSymbols(pkt), SymbolSeconds(pkt.bandwidth, pkt.datarate))
      == LoraUs(pkt) as real + (extra * us) as real
  {
    LoraIsDataSheet(pkt);
    SymbolIsExact(pkt.bandwidth, pkt.datarate);
    SymbolsDiffer(pkt);
    LinearMicros(SentSymbols(pkt), SheetSymbols(pkt), extra, SymbolSeconds(pkt.bandwidth, pkt.datarate), us);
  }

  /** The data sheet's symbols for the packet as it was asked for. */
  function SheetSymbols(pkt: TxPacket): real
    requires SendableLora(pkt)
  {
    DataSheetSymbols(pkt.bandwidth, pkt.datarate, pkt.coderate, pkt.preamble, pkt.noHeader, pkt.noCrc, pkt.size)
  }

  lemma LoraIsDataSheet(pkt: TxPacket)
    requires SendableLora(pkt) && !LostDuration(pkt)
    ensures LoraUs(pkt) as real == Micros(SheetSymbols(pkt), SymbolSeconds(pkt.bandwidth, pkt.datarate))
  {
    assert pkt.datarate % 0x100 == pkt.datarate && pkt.size % 0x100 == pkt.size;
    ExactWhenSymbolFits(pkt.bandwidth, pkt.datarate, pkt.coderate, pkt.preamble, pkt.noHeader, pkt.noCrc, pkt.size);
  }

  lemma LinearMicros(sent: real, symbols: real, extra: int, seconds: real, us: int)
    requires us as real == seconds * 1000000.0 && sent == symbols + extra as real
    ensures Micros(sent, seconds) == Micros(symbols, seconds) + (extra * us) as real
  {
    assert (extra * us) as real == extra as real * us as real;
  }

  lemma SymbolsDiffer(pkt: TxPacket)
    requires SendableLora(pkt) && !LostDuration(pkt)
    ensures SentSymbols(pkt) == SheetSymbols(pkt) + (ExtraPreamble(pkt) - SavedSymbols(pkt)) as real
  {
    SymbolsAgree(pkt.bandwidth, pkt.datarate, pkt.coderate, pkt.preamble, pkt.noHeader, pkt.noCrc, pkt.size);
    PayloadSymbolsAre(pkt.datarate, pkt.coderate, pkt.noHeader, pkt.noCrc, pkt.size,
                      SentLdro(pkt.bandwidth, pkt.datarate));
  }

  /** The transmitter never sends more payload symbols than the guard counts. */
  lemma NothingIsLost(pkt: TxPacket)
    requires SendableLora(pkt) && !LostDuration(pkt)
    ensures SavedSymbols(pkt) >= 0
  {
    var a := PayloadBits(pkt.datarate, pkt.noHeader, pkt.noCrc, pkt.size);
    var b := BitsPerBlock(pkt.datarate, SymbolUs(pkt.bandwidth, pkt.datarate));
    var c := 4 * (pkt.datarate - SentLdro(pkt.bandwidth, pkt.datarate));
    SentLdroIsLess(pkt.bandwidth, pkt.datarate);
    CeilDivAntitone(a, b, c);
    CeilDivBound(a, c);
    MulMonotone(CeilDiv(a, c), CeilDiv(a, b), pkt.coderate + 4, pkt.coderate + 4);
  }

  lemma SentLdroIsLess(bw: u8, sf: u8)
    requires IsLoraBw(bw) && IsLoraDr(sf)
    ensures !SymbolWraps(bw, sf) && SentLdro(bw, sf) == 2 ==> SymbolUs(bw, sf) > 16000
  {
    Pow2Table();
    SymbolRange(bw, sf);
  }

  lemma CeilDivAntitone(a: int, b: int, c: int)
    requires a >= 0 && 0 < b <= c
    ensures CeilDiv(a, c) <= CeilDiv(a, b)
  {
    CeilDivBound(a, b);
    QuotientAntitone(a, b, c, CeilDiv(a, b), CeilDiv(a, c), (a + b - 1) % b, (a + c - 1) % c);
  }

  lemma QuotientAntitone(a: int, b: int, c: int, q: int, p: int, r: int, s: int)
    requires 0 < b <= c && 0 <= q && 0 <= r < b && 0 <= s < c
    requires b * q + r == a + b - 1 && c * p + s == a + c - 1
    ensures p <= q
  {
    MulMonotone(b, c, q, q);
    assert c * (q + 1) == c * q + c;
    if p >= q + 1 {
      MulMonotone(c, c, q + 1, p);
    }
  }

  /** Without an added preamble nothing is longer than computed. */
  lemma NoExtraWithoutPreamble(pkt: TxPacket, syncWordSize: u8)
    requires (SendableLora(pkt) || SendableFsk(pkt)) && !LostDuration(pkt)
    requires SentPreamble(pkt) == pkt.preamble
    ensures ExtraUs(pkt, syncWordSize) <= 0.0
  {
    if pkt.modulation == MOD_LORA {
      NothingIsLost(pkt);
      SymbolRange(pkt.bandwidth, pkt.datarate);
      NegativeProduct(SavedSymbols(pkt), SymbolUs(pkt.bandwidth, pkt.datarate));
    } else {
      BitIsShort(pkt.datarate);
      ProductIsNatural((pkt.preamble + FskBytes(pkt, syncWordSize)) as real,
                       1000000.0 / pkt.datarate as real - BitUs(pkt.datarate));
    }
  }

  lemma NegativeProduct(x: int, y: int)
    requires x >= 0 && y >= 0
    ensures (0 - x) * y <= 0
  {
    assert (0 - x) * y == -(x * y);
    MulMonotone(0, x, 0, y);
  }

  lemma ProductIsNatural(x: real, y: real)
    requires x >= 0.0 && y >= 0.0
    ensures 8.0 * x * y >= 0.0
  {
  }

  // ---------------------------------------------------------------- what an admission means

  /** Does every transmission of this packet end before the limit, whatever limit the channel has, once the
      guard admits it? */
  ghost predicate GuardProtects(pkt: TxPacket, syncWordSize: u8)
    requires Sendable(pkt)
  {
    forall limit: u16, carrierUs: real | DurationAllowed(limit, TimeOnAirMs(pkt, syncWordSize)) ::
      TrueUs(pkt, syncWordSize, carrierUs) < limit as real * 1000.0
  }

  /** The guard protects exactly the packets that are no continuous carrier, whose duration is not lost to the
      16-bit symbol, and whose added preamble fits into the room that rounding leaves. */
  lemma GuardProtectsIff(pkt: TxPacket, syncWordSize: u8)
    requires Sendable(pkt)
    ensures GuardProtects(pkt, syncWordSize) <==>
      pkt.modulation != MOD_CW && !LostDuration(pkt) && ExtraUs(pkt, syncWordSize) < RoomUs(pkt, syncWordSize)
  {
    if pkt.modulation == MOD_CW || LostDuration(pkt) {
      Unprotected(pkt, syncWordSize, 2);
      var limit: u16 := 2;
      assert TrueUs(pkt, syncWordSize, 800000.0) >= limit as real * 1000.0;
    } else if ExtraUs(pkt, syncWordSize) < RoomUs(pkt, syncWordSize) {
      forall limit: u16, carrierUs: real | DurationAllowed(limit, TimeOnAirMs(pkt, syncWordSize))
        ensures TrueUs(pkt, syncWordSize, carrierUs) < limit as real * 1000.0
      {
        SentIsComputedPlusExtra(pkt, syncWordSize, carrierUs);
        NoWrapInGuard(pkt, syncWordSize);
        GuardArithmetic(TimeOnAirMs(pkt, syncWordSize), limit);
      }
    } else {
      var limit := OverrunLimit(pkt, syncWordSize, 0.0);
    }
  }

  /** Without that room the smallest limit that the guard accepts is overrun. */
  lemma OverrunLimit(pkt: TxPacket, syncWordSize: u8, carrierUs: real) returns (limit: u16)
    requires (SendableLora(pkt) || SendableFsk(pkt)) && !LostDuration(pkt)
    requires ExtraUs(pkt, syncWordSize) >= RoomUs(pkt, syncWordSize)
    ensures DurationAllowed(limit, TimeOnAirMs(pkt, syncWordSize))
    ensures TrueUs(pkt, syncWordSize, carrierUs) >= limit as real * 1000.0
  {
    RoomLeft(pkt, syncWordSize);
    if SentPreamble(pkt) == pkt.preamble {
      NoExtraWithoutPreamble(pkt, syncWordSize);
    }
    ShortPreambleIsShort(pkt, syncWordSize);
    SentIsComputedPlusExtra(pkt, syncWordSize, carrierUs);
    limit := SmallestLimit(TimeOnAirMs(pkt, syncWordSize));
  }

  lemma SmallestLimit(ms: int) returns (limit: u16)
    requires 0 <= ms <= 30000
    ensures limit == ms + 2 && DurationAllowed(limit, ms)
  {
    limit := ms + 2;
  }

  /** A packet with a preamble that is lengthened is computed to last less than half a minute. */
  lemma ShortPreambleIsShort(pkt: TxPacket, syncWordSize: u8)
    requires (SendableLora(pkt) || SendableFsk(pkt)) && SentPreamble(pkt) != pkt.preamble
    ensures 0 <= TimeOnAirMs(pkt, syncWordSize) <= 30000
  {
    if pkt.modulation == MOD_LORA {
      assert pkt.datarate % 0x100 == pkt.datarate && pkt.size % 0x100 == pkt.size;
      FewPayloadSymbols(pkt.bandwidth, pkt.datarate, pkt.coderate, pkt.noHeader, pkt.noCrc, pkt.size);
      SymbolRange(pkt.bandwidth, pkt.datarate);
      var n := QuarterSymbols(pkt.bandwidth, pkt.datarate, pkt.coderate, pkt.preamble, pkt.noHeader, pkt.noCrc,
                              pkt.size);
      MulMonotone(n, 3437, SymbolUs(pkt.bandwidth, pkt.datarate), 32768);
    } else {
      ShortFsk((pkt.preamble + FskBytes(pkt, syncWordSize)) as real, pkt.datarate as real);
    }
  }

  lemma ShortFsk(n: real, rate: real)
    requires 0.0 <= n <= 600.0 && rate >= 500.0
    ensures 0.0 <= 8.0 * n / rate * 1000.0 <= 9600.0
  {
    var q := 8.0 * n / rate;
    assert q * rate == 8.0 * n;
    assert q >= 0.0;
    assert q * rate >= q * 500.0;
  }

  lemma FewPayloadSymbols(bw: u8, sf: u8, cr: u8, noHeader: bool, noCrc: bool, size: u8)
    requires Accepted(bw, sf, cr)
    ensures 0 <= PayloadSymbols(bw, sf, cr, noHeader, noCrc, size) <= 840
  {
    var a, b := PayloadBits(sf, noHeader, noCrc, size), BitsPerBlock(sf, SymbolUs(bw, sf));
    BlocksAreLarge(bw, sf);
    CeilDivAntitone(a, 20, b);
    CeilDivBound(a, b);
    MulMonotone(CeilDiv(a, b), 105, cr + 4, 8);
  }

  lemma BlocksAreLarge(bw: u8, sf: u8)
    requires IsLoraBw(bw) && IsLoraDr(sf)
    ensures BitsPerBlock(sf, SymbolUs(bw, sf)) >= 20
  {
    Pow2Table();
    SymbolRange(bw, sf);
  }

  /** A packet whose computed duration is 0 passes the guard under every usable limit, however long it lasts. */
  lemma Unprotected(pkt: TxPacket, syncWordSize: u8, limit: u16)
    requires Sendable(pkt) && (pkt.modulation == MOD_CW || LostDuration(pkt))
    requires limit >= 2
    ensures TimeOnAirMs(pkt, syncWordSize) == 0
    ensures DurationAllowed(limit, TimeOnAirMs(pkt, syncWordSize))
    ensures TrueUs(pkt, syncWordSize, 800000.0) >= 800000.0
    ensures LostDuration(pkt) ==> LoraUs(pkt) == 0
  {
    if LostDuration(pkt) {
      LostDurationIsLong(pkt, syncWordSize);
      ZeroWhenSymbolWraps(pkt.bandwidth, pkt.datarate, pkt.coderate, pkt.preamble, pkt.noHeader, pkt.noCrc, pkt.size);
    }
  }

  /** An admitted packet ends more than 1.5 ms before the channel's limit, rounding included, unless its preamble is
      lengthened: then it may end later by that much. */
  lemma AdmittedStaysBelow(pkt: TxPacket, syncWordSize: u8, limit: u16, carrierUs: real)
    requires Sendable(pkt) && pkt.modulation != MOD_CW && !LostDuration(pkt)
    requires DurationAllowed(limit, TimeOnAirMs(pkt, syncWordSize))
    ensures TrueUs(pkt, syncWordSize, carrierUs) < limit as real * 1000.0 - 1500.0 + ExtraUs(pkt, syncWordSize)
    ensures SentPreamble(pkt) == pkt.preamble ==> TrueUs(pkt, syncWordSize, carrierUs) < limit as real * 1000.0 - 1500.0
  {
    NoWrapInGuard(pkt, syncWordSize);
    GuardArithmetic(TimeOnAirMs(pkt, syncWordSize), limit);
    SentIsComputedPlusExtra(pkt, syncWordSize, carrierUs);
    RoomBounds(pkt, syncWordSize);
    if SentPreamble(pkt) == pkt.preamble {
      NoExtraWithoutPreamble(pkt, syncWordSize);
    }
  }

  /** For LoRa the added preamble decides alone, but for a window of 1 ms: up to 1.5 ms of it is harmless, and more
      than 2.5 ms defeats the guard, except at 62.5 kHz, where fewer payload symbols may make up for it. */
  lemma PreambleDecides(pkt: TxPacket, syncWordSize: u8)
    requires SendableLora(pkt) && !LostDuration(pkt)
    ensures ExtraPreamble(pkt) * SymbolUs(pkt.bandwidth, pkt.datarate) <= 1500 ==> GuardProtects(pkt, syncWordSize)
    ensures pkt.bandwidth != BW_62K5HZ && ExtraPreamble(pkt) * SymbolUs(pkt.bandwidth, pkt.datarate) > 2500
      ==> !GuardProtects(pkt, syncWordSize)
  {
    GuardProtectsIff(pkt, syncWordSize);
    RoomBounds(pkt, syncWordSize);
    NothingIsLost(pkt);
    SymbolRange(pkt.bandwidth, pkt.datarate);
    LessSaved(ExtraPreamble(pkt), SavedSymbols(pkt), SymbolUs(pkt.bandwidth, pkt.datarate));
    if pkt.bandwidth != BW_62K5HZ {
      NothingIsSaved(pkt);
    }
  }

  lemma LessSaved(extra: int, saved: int, us: int)
    requires saved >= 0 && us >= 0
    ensures (extra - saved) * us <= extra * us
  {
    assert (extra - saved) * us == extra * us - saved * us;
    MulMonotone(0, saved, 0, us);
  }

  /** From 125 kHz on, transmitter and guard agree on low data rate optimisation. */
  lemma NothingIsSaved(pkt: TxPacket)
    requires SendableLora(pkt) && pkt.bandwidth != BW_62K5HZ
    ensures SavedSymbols(pkt) == 0
  {
    SentLdroIsComputed(pkt.bandwidth, pkt.datarate);
  }

  lemma SentLdroIsComputed(bw: u8, sf: u8)
    requires IsLoraBw(bw) && IsLoraDr(sf) && bw != BW_62K5HZ
    ensures BitsPerBlock(sf, SymbolUs(bw, sf)) == 4 * (sf - SentLdro(bw, sf))
  {
    Pow2Table();
    SymbolRange(bw, sf);
  }

  lemma GuardArithmetic(ms: int, limit: u16)
    requires 0 <= ms * 1000 < 0x1_0000_0000 && DurationAllowed(limit, ms)
    ensures ms <= limit - 2
  {
  }

  /** An SF12 packet at 62.5 kHz is sent with at least 18.25 symbols of 65.536 ms. */
  lemma LostDurationIsLong(pkt: TxPacket, syncWordSize: u8)
    requires Sendable(pkt) && LostDuration(pkt)
    ensures TrueUs(pkt, syncWordSize, 0.0) >= 1196032.0
  {
    Pow2Table();
    var a := PayloadBits(pkt.datarate, pkt.noHeader, pkt.noCrc, pkt.size);
    BitsAgree(pkt.datarate, pkt.noHeader, pkt.noCrc, pkt.size);
    CeilIsCeilDiv(a, 48);
    CeilDivBound(a, 48);
    MulMonotone(0, CeilDiv(a, 48), 0, pkt.coderate + 4);
    assert SentSymbols(pkt) >= 18.25;
  }

  // ---------------------------------------------------------------- packets that overrun their limit

  /** A carrier of any length is admitted under every limit from 2 ms. */
  lemma CarrierPassesGuard(limit: u16, carrierUs: real) returns (pkt: TxPacket)
    requires limit >= 2
    ensures Sendable(pkt) && pkt.modulation == MOD_CW
    ensures DurationAllowed(limit, TimeOnAirMs(pkt, 3)) && TrueUs(pkt, 3, carrierUs) == carrierUs
  {
    pkt := TxPacket(868000000, MOD_CW, BW_125KHZ, 0, 0, 0, 0, false, false, 0);
    Unprotected(pkt, 3, limit);
  }

  /** So is a full SF12 packet at 62.5 kHz, which lasts 23.9 seconds and for which the code computes 0. */
  lemma LongPacketPassesGuard(limit: u16) returns (pkt: TxPacket)
    requires limit >= 2
    ensures Sendable(pkt) && pkt.modulation == MOD_LORA && pkt.size == 255 && LoraUs(pkt) == 0
    ensures DurationAllowed(limit, TimeOnAirMs(pkt, 3)) && TrueUs(pkt, 3, 0.0) == 23871488.0
  {
    pkt := TxPacket(868000000, MOD_LORA, BW_62K5HZ, 12, 4, 0, 8, false, false, 255);
    Unprotected(pkt, 3, limit);
    LongPacketUs(pkt);
  }

  lemma LongPacketUs(pkt: TxPacket)
    requires pkt == TxPacket(868000000, MOD_LORA, BW_62K5HZ, 12, 4, 0, 8, false, false, 255)
    ensures TrueUs(pkt, 3, 0.0) == 23871488.0
  {
    Pow2Table();
    CeilIsCeilDiv(2036, 48);
    assert DataSheetBits(12, false, false, 255) == 2036.0;
    assert SentSymbols(pkt) == 364.25;
  }

  /** A LoRa packet without an explicit preamble: 365 ms are computed, and with the 8 symbols of preamble that are
      sent it lasts 496 ms, under a limit of 400 ms. */
  lemma MissingPreambleOverruns() returns (pkt: TxPacket)
    ensures SendableLora(pkt) && !LostDuration(pkt) && pkt.preamble == 0
    ensures DurationAllowed(400, TimeOnAirMs(pkt, 3)) && TrueUs(pkt, 3, 0.0) == 495616.0
  {
    pkt := TxPacket(923200000, MOD_LORA, BW_125KHZ, 11, 1, 0, 0, false, false, 5);
    Pow2Table();
    assert PayloadBits(11, false, false, 5) == 40;
    CeilIsCeilDiv(40, 36);
    assert LoraUs(pkt) == 364544;
    assert DataSheetBits(11, false, false, 5) == 40.0;
    assert SentSymbols(pkt) == 30.25;
  }

  /** The same for FSK at 500 bit/s: 113 ms are computed and 192 ms sent. */
  lemma MissingFskPreambleOverruns() returns (pkt: TxPacket)
    ensures SendableFsk(pkt) && pkt.preamble == 0
    ensures DurationAllowed(115, TimeOnAirMs(pkt, 3)) && TrueUs(pkt, 3, 0.0) == 192000.0
  {
    pkt := TxPacket(868000000, MOD_FSK, BW_125KHZ, 500, 0, 25, 0, false, false, 1);
    assert FskMs(pkt, 3) == 112.0;
    assert BitUs(500) == 2000.0;
  }
}
