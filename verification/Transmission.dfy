/**
 What is sent on the air (`lgw_send` in loragw_hal.c, `sx1302_send` in loragw_sx1302.c). The transmitter fills in a
 missing preamble, lengthens a short one, and decides on low data rate optimisation and the FSK bit clock itself.
 */
module Transmission {
  import opened NativeTypes
  import opened TimeOnAir

  const MOD_CW: u8 := 0x08
  const MOD_LORA: u8 := 0x10
  const MOD_FSK: u8 := 0x20
  const DR_FSK_MIN: int := 500
  const DR_FSK_MAX: int := 250000
  const MIN_LORA_PREAMBLE: u16 := 6
  const STD_LORA_PREAMBLE: u16 := 8
  const MIN_FSK_PREAMBLE: u16 := 3
  const STD_FSK_PREAMBLE: u16 := 5
  const FSK_CLOCK_HZ: int := 32000000

  datatype TxPacket = TxPacket(
    freqHz: u32, modulation: u8, bandwidth: u8, datarate: u32, coderate: u8, freqDevKhz: u8,
    preamble: u16, noHeader: bool, noCrc: bool, size: u16)

  predicate SendableLora(pkt: TxPacket) {
    && pkt.modulation == MOD_LORA && pkt.datarate < 0x100
    && Accepted(pkt.bandwidth, pkt.datarate, pkt.coderate) && pkt.size <= 255
  }

  predicate SendableFsk(pkt: TxPacket) {
    && pkt.modulation == MOD_FSK && 1 <= pkt.freqDevKhz <= 200
    && DR_FSK_MIN <= pkt.datarate <= DR_FSK_MAX && pkt.size <= 255
  }

  /** What `lgw_send` has checked before it starts listening: nothing at all for a continuous carrier. */
  predicate Sendable(pkt: TxPacket) {
    SendableLora(pkt) || SendableFsk(pkt) || pkt.modulation == MOD_CW
  }

  /** The preamble that is sent for the one that is asked for. */
  function SentPreamble(pkt: TxPacket): (r: u16)
    requires pkt.modulation == MOD_LORA || pkt.modulation == MOD_FSK
    ensures pkt.preamble <= r <= pkt.preamble + 8
    ensures pkt.modulation == MOD_LORA ==> r >= 6 && (pkt.preamble >= 6 ==> r == pkt.preamble)
    ensures pkt.modulation == MOD_FSK ==> r >= 3 && (pkt.preamble >= 3 ==> r == pkt.preamble)
  {
    if pkt.modulation == MOD_LORA then
      if pkt.preamble == 0 then STD_LORA_PREAMBLE
      else if pkt.preamble < MIN_LORA_PREAMBLE then MIN_LORA_PREAMBLE else pkt.preamble
    else
      if pkt.preamble == 0 then STD_FSK_PREAMBLE
      else if pkt.preamble < MIN_FSK_PREAMBLE then MIN_FSK_PREAMBLE else pkt.preamble
  }

  function ExtraPreamble(pkt: TxPacket): (r: int)
    requires pkt.modulation == MOD_LORA || pkt.modulation == MOD_FSK
    ensures 0 <= r <= 8
  {
    SentPreamble(pkt) - pkt.preamble
  }

  // ---------------------------------------------------------------- LoRa

  /** `SET_PPM_ON`: never at 62.5 kHz. */
  function SentLdro(bw: u8, sf: u8): (r: int)
    ensures 0 <= r <= 2
  {
    if (bw == BW_125KHZ && (sf == 11 || sf == 12)) || (bw == BW_250KHZ && sf == 12) then 2 else 0
  }

  /** The payload symbols with this reduction of the spreading factor. */
  function PayloadSymbolsWith(sf: u8, cr: u8, noHeader: bool, noCrc: bool, size: u8, reduction: int): real
    requires IsLoraDr(sf) && 0 <= reduction <= 2
  {
    (Ceil(Max(DataSheetBits(sf, noHeader, noCrc, size), 0.0) / (4 * (sf - reduction)) as real) * (cr + 4)) as real
  }

  lemma PayloadSymbolsAre(sf: u8, cr: u8, noHeader: bool, noCrc: bool, size: u8, reduction: int)
    requires IsLoraDr(sf) && 0 <= reduction <= 2
    ensures PayloadSymbolsWith(sf, cr, noHeader, noCrc, size, reduction)
         == (CeilDiv(PayloadBits(sf, noHeader, noCrc, size), 4 * (sf - reduction)) * (cr + 4)) as real
  {
    BitsAgree(sf, noHeader, noCrc, size);
    CeilIsCeilDiv(PayloadBits(sf, noHeader, noCrc, size), 4 * (sf - reduction));
  }

  function SentSymbols(pkt: TxPacket): real
    requires SendableLora(pkt)
  {
    SentPreamble(pkt) as real + (if pkt.datarate <= 6 then 6.25 else 4.25) + 8.0
      + PayloadSymbolsWith(pkt.datarate, pkt.coderate, pkt.noHeader, pkt.noCrc, pkt.size,
                           SentLdro(pkt.bandwidth, pkt.datarate))
  }

  // ---------------------------------------------------------------- FSK

  /** The bytes besides the preamble. */
  function FskBytes(pkt: TxPacket, syncWordSize: u8): (r: int)
    ensures r >= 1
  {
    syncWordSize + 1 + pkt.size + (if pkt.noCrc then 0 else 2)
  }

  /** `fsk_br_reg`: how many ticks of the 32 MHz clock a bit lasts. */
  function BitTicks(datarate: u32): (r: u16)
    requires DR_FSK_MIN <= datarate <= DR_FSK_MAX
  {
    assert FSK_CLOCK_HZ / datarate <= 64000 by { TicksBound(datarate, FSK_CLOCK_HZ / datarate); }
    FSK_CLOCK_HZ / datarate
  }

  lemma TicksBound(datarate: int, q: int)
    requires DR_FSK_MIN <= datarate && q == FSK_CLOCK_HZ / datarate
    ensures 0 <= q <= 64000 && q * datarate <= FSK_CLOCK_HZ
  {
    assert FSK_CLOCK_HZ == datarate * q + FSK_CLOCK_HZ % datarate;
    if q >= 64001 {
      MulMonotone(DR_FSK_MIN, datarate, 64001, q);
    }
  }

  function BitUs(datarate: u32): real
    requires DR_FSK_MIN <= datarate <= DR_FSK_MAX
  {
    BitTicks(datarate) as real / 32.0
  }

  /** A sent bit is never longer than the data rate asks for. */
  lemma BitIsShort(datarate: u32)
    requires DR_FSK_MIN <= datarate <= DR_FSK_MAX
    ensures 0.0 <= BitUs(datarate) <= 1000000.0 / datarate as real
  {
    var q := BitTicks(datarate);
    TicksBound(datarate, q);
    assert (q * datarate) as real == q as real * datarate as real;
    assert (1000000.0 / datarate as real) * datarate as real == 1000000.0;
    assert BitUs(datarate) * datarate as real <= 1000000.0;
  }

  // ---------------------------------------------------------------- the duration

  /** How long the transmission lasts in microseconds; a carrier until somebody aborts it, `carrierUs` later. */
  function TrueUs(pkt: TxPacket, syncWordSize: u8, carrierUs: real): real
    requires Sendable(pkt)
  {
    if pkt.modulation == MOD_LORA then Micros(SentSymbols(pkt), SymbolSeconds(pkt.bandwidth, pkt.datarate))
    else if pkt.modulation == MOD_FSK then
      8.0 * (SentPreamble(pkt) + FskBytes(pkt, syncWordSize)) as real * BitUs(pkt.datarate)
    else carrierUs
  }
}
