/**
 LoRa time on air (loragw_aux.c).

 The C code works with a `uint16_t` symbol duration and a `uint32_t` result.  The reference it is
 compared with is the formula of the Semtech SX1261/2 data sheet, section 6.1.4, over the reals.
 */
module TimeOnAir {
  import opened NativeTypes

  const BW_62K5HZ: u8 := 3
  const BW_125KHZ: u8 := 4
  const BW_250KHZ: u8 := 5
  const BW_500KHZ: u8 := 6
  const MAX_TOA_US: int := 2724667392  // no packet takes longer

  predicate IsLoraBw(bw: u8) { bw == BW_62K5HZ || bw == BW_125KHZ || bw == BW_250KHZ || bw == BW_500KHZ }

  predicate IsLoraDr(sf: int) { 5 <= sf <= 12 }

  predicate IsLoraCr(cr: u8) { 1 <= cr <= 4 }

  predicate Accepted(bw: u8, sf: u8, cr: u8) { IsLoraDr(sf) && IsLoraBw(bw) && IsLoraCr(cr) }

  function Pow2(n: nat): nat { if n == 0 then 1 else 2 * Pow2(n - 1) }

  // ---------------------------------------------------------------- as the C code computes it

  function BwPow(bw: u8): (r: int)
    requires IsLoraBw(bw)
    ensures r > 0
  {
    if bw == BW_62K5HZ then 1 else if bw == BW_125KHZ then 2 else if bw == BW_250KHZ then 4 else 8
  }

  /** `(1 << sf) * 16 / bw_pow`, stored in a uint16_t. */
  function SymbolUs(bw: u8, sf: u8): u16
    requires IsLoraBw(bw) && IsLoraDr(sf)
  {
    WideSymbolUs(bw, sf) % 0x1_0000
  }

  function WideSymbolUs(bw: u8, sf: u8): int
    requires IsLoraBw(bw) && IsLoraDr(sf)
  {
    Pow2(sf) * 16 / BwPow(bw)
  }

  function CeilDiv(a: int, b: int): int
    requires a >= 0 && b > 0
  {
    (a + b - 1) / b
  }

  /** `MAX(8*size + n_bit_crc - 4*sf + ((sf >= 7) ? 8 : 0) + 20*H, 0)` */
  function PayloadBits(sf: u8, noHeader: bool, noCrc: bool, size: u8): (r: int)
    ensures 0 <= r <= 2100
  {
    var bits := 8 * size + (if noCrc then 0 else 16) - 4 * sf + (if sf >= 7 then 8 else 0)
      + 20 * (if noHeader then 0 else 1);
    if bits > 0 then bits else 0
  }

  /** `4 * (sf - 2*DE)`, DE being set for symbols longer than 16 ms. */
  function BitsPerBlock(sf: u8, symbolUs: u16): (r: int)
    requires IsLoraDr(sf)
    ensures r >= 12
  {
    4 * (sf - 2 * (if symbolUs > 16000 then 1 else 0))
  }

  function PayloadSymbols(bw: u8, sf: u8, cr: u8, noHeader: bool, noCrc: bool, size: u8): (r: int)
    requires Accepted(bw, sf, cr)
  {
    CeilDiv(PayloadBits(sf, noHeader, noCrc, size), BitsPerBlock(sf, SymbolUs(bw, sf))) * (cr + 4)
  }

  /** Quarter symbols of the whole packet: the preamble overhead is 4.25 or 6.25 symbols. */
  function QuarterSymbols(bw: u8, sf: u8, cr: u8, preamble: u16, noHeader: bool, noCrc: bool, size: u8): int
    requires Accepted(bw, sf, cr)
  {
    4 * preamble + (if sf >= 7 then 17 else 25) + 32 + 4 * PayloadSymbols(bw, sf, cr, noHeader, noCrc, size)
  }

  /** `lora_packet_time_on_air`; 0 on parameters it does not accept. */
  function PacketTimeOnAir(bw: u8, sf: u8, cr: u8, preamble: u16, noHeader: bool, noCrc: bool, size: u8): u32 {
    if !Accepted(bw, sf, cr) then 0
    else
      // the product is below 2^32, so the conversion to uint32_t is exact
      FitsUint32(bw, sf, cr, preamble, noHeader, noCrc, size);
      Quarters(QuarterSymbols(bw, sf, cr, preamble, noHeader, noCrc, size), SymbolUs(bw, sf))
  }

  /** The duration of n quarter symbols of t microseconds. */
  function Quarters(n: int, t: int): int { n * t / 4 }

  // ---------------------------------------------------------------- the data sheet

  function BandwidthHz(bw: u8): real
    requires IsLoraBw(bw)
  {
    if bw == BW_62K5HZ then 62500.0 else if bw == BW_125KHZ then 125000.0
    else if bw == BW_250KHZ then 250000.0 else 500000.0
  }

  function SymbolSeconds(bw: u8, sf: u8): real
    requires IsLoraBw(bw) && IsLoraDr(sf)
  {
    Pow2(sf) as real / BandwidthHz(bw)
  }

  function Ceil(x: real): int { -((-x).Floor) }

  function Max(x: real, y: real): real { if x >= y then x else y }

  function DataSheetBits(sf: u8, noHeader: bool, noCrc: bool, size: u8): real {
    var header := if noHeader then 0.0 else 20.0;
    var crc := if noCrc then 0.0 else 16.0;
    if sf <= 6 then 8.0 * size as real + crc - 4.0 * sf as real + header
    else 8.0 * size as real + crc - 4.0 * sf as real + 8.0 + header
  }

  /** Low data rate optimisation, from a symbol time of 16.384 ms. */
  function DataSheetLdro(bw: u8, sf: u8): (r: int)
    requires IsLoraBw(bw) && IsLoraDr(sf)
    ensures 0 <= r <= 2
  {
    if SymbolSeconds(bw, sf) >= 0.016384 then 2 else 0
  }

  /** Nsymbol of section 6.1.4. */
  function DataSheetSymbols(bw: u8, sf: u8, cr: u8, preamble: u16, noHeader: bool, noCrc: bool, size: u8): real
    requires Accepted(bw, sf, cr)
  {
    preamble as real + (if sf <= 6 then 6.25 else 4.25) + 8.0
      + (Ceil(Max(DataSheetBits(sf, noHeader, noCrc, size), 0.0) / (4 * (sf - DataSheetLdro(bw, sf))) as real)
         * (cr + 4)) as real
  }

  /** The data sheet's time on air in microseconds. */
  function DataSheetUs(bw: u8, sf: u8, cr: u8, preamble: u16, noHeader: bool, noCrc: bool, size: u8): real
    requires Accepted(bw, sf, cr)
  {
    Micros(DataSheetSymbols(bw, sf, cr, preamble, noHeader, noCrc, size), SymbolSeconds(bw, sf))
  }

  function Micros(symbols: real, seconds: real): real { symbols * seconds * 1000000.0 }

  // ---------------------------------------------------------------- lemmas

  /** Is this the one setting whose 65536 us symbol does not fit the uint16_t? */
  predicate SymbolWraps(bw: u8, sf: u8) { bw == BW_62K5HZ && sf == 12 }

  lemma Pow2Table()
    ensures Pow2(5) == 32 && Pow2(6) == 64 && Pow2(7) == 128 && Pow2(8) == 256
    ensures Pow2(9) == 512 && Pow2(10) == 1024 && Pow2(11) == 2048 && Pow2(12) == 4096
  {
    assert Pow2(8) == 256;
  }

  lemma Pow2Values(sf: u8)
    requires IsLoraDr(sf)
    ensures Pow2(sf) in {32, 64, 128, 256, 512, 1024, 2048, 4096} && (Pow2(sf) == 4096 <==> sf == 12)
  {
    Pow2Table();
  }

  lemma WideSymbolRange(bw: u8, sf: u8)
    requires IsLoraBw(bw) && IsLoraDr(sf)
    ensures var t := WideSymbolUs(bw, sf);
      && t % 4 == 0 && 64 <= t && t * BwPow(bw) == Pow2(sf) * 16
      && (if SymbolWraps(bw, sf) then t == 65536 else t <= 32768)
      && (t <= 8192 || t >= 16384)
  {
    Pow2Values(sf);
    SymbolCase(bw, Pow2(sf));
  }

  lemma SymbolCase(bw: u8, p: int)
    requires IsLoraBw(bw) && p in {32, 64, 128, 256, 512, 1024, 2048, 4096}
    ensures var t := p * 16 / BwPow(bw);
      && t % 4 == 0 && 64 <= t <= 65536 && t * BwPow(bw) == p * 16
      && (t > 32768 <==> bw == BW_62K5HZ && p == 4096) && (t == 65536 <==> bw == BW_62K5HZ && p == 4096)
      && (t <= 8192 || t >= 16384)
  {
    if bw == BW_62K5HZ {
    } else if bw == BW_125KHZ {
    } else if bw == BW_250KHZ {
    } else {
    }
  }

  /** What one symbol lasts: a multiple of 4 us between 64 and 32768 us, unless it wraps to 0. */
  lemma SymbolRange(bw: u8, sf: u8)
    requires IsLoraBw(bw) && IsLoraDr(sf)
    ensures SymbolUs(bw, sf) % 4 == 0
    ensures SymbolUs(bw, sf) == if SymbolWraps(bw, sf) then 0 else WideSymbolUs(bw, sf)
    ensures !SymbolWraps(bw, sf) ==> 64 <= SymbolUs(bw, sf) <= 32768
  {
    WideSymbolRange(bw, sf);
    Truncated(WideSymbolUs(bw, sf));
  }

  lemma Truncated(t: int)
    requires 0 <= t <= 65536
    ensures t % 0x1_0000 == if t == 65536 then 0 else t
  {
  }

  /** The symbol the code uses and the data sheet's are the same duration. */
  lemma SymbolIsExact(bw: u8, sf: u8)
    requires IsLoraBw(bw) && IsLoraDr(sf)
    ensures SymbolSeconds(bw, sf) > 0.0
    ensures !SymbolWraps(bw, sf) ==> SymbolUs(bw, sf) as real == SymbolSeconds(bw, sf) * 1000000.0
  {
    WideSymbolRange(bw, sf);
    SymbolRange(bw, sf);
    Pow2Values(sf);
  }

  /** The code's 16 ms threshold and the data sheet's 16.384 ms one select the same settings. */
  lemma LdroAgrees(bw: u8, sf: u8)
    requires IsLoraBw(bw) && IsLoraDr(sf) && !SymbolWraps(bw, sf)
    ensures SymbolUs(bw, sf) > 16000 <==> SymbolSeconds(bw, sf) >= 0.016384
  {
    WideSymbolRange(bw, sf);
    SymbolRange(bw, sf);
    SymbolIsExact(bw, sf);
  }

  // ---- arithmetic

  lemma MulMonotone(x: int, x': int, y: int, y': int)
    requires 0 <= x <= x' && 0 <= y <= y'
    ensures 0 <= x * y <= x' * y'
  {
    assert x * y <= x' * y;
    assert x' * y <= x' * y';
  }

  lemma DivUnique(x: int, b: int, q: int, r: int)
    requires b > 0 && 0 <= r < b && x == b * q + r
    ensures x / b == q
  {
    var d := x / b;
    assert x == b * d + x % b;
    assert b * (d - q) == r - x % b;
    if d - q >= 1 {
      MulMonotone(b, b, 1, d - q);
    } else if q - d >= 1 {
      MulMonotone(b, b, 1, q - d);
    }
  }

  lemma DivMonotone(x: int, y: int, b: int)
    requires b > 0 && x <= y
    ensures x / b <= y / b
  {
    var q, q' := x / b, y / b;
    assert x == b * q + x % b && y == b * q' + y % b;
    assert b * (q - q') == x - y + y % b - x % b;
    if q - q' >= 1 {
      MulMonotone(b, b, 1, q - q');
    }
  }

  lemma CeilDivBound(a: int, b: int)
    requires a >= 0 && b > 0
    ensures 0 <= CeilDiv(a, b) <= a + 1
  {
    QuotientBound(a, b, CeilDiv(a, b), (a + b - 1) % b);
  }

  lemma QuotientBound(a: int, b: int, q: int, r: int)
    requires a >= 0 && b > 0 && 0 <= r < b && b * q + r == a + b - 1
    ensures 0 <= q <= a + 1
  {
    assert b * (a + 2) == b * a + 2 * b;
    MulMonotone(1, b, a, a);
    if q >= a + 2 {
      MulMonotone(b, b, a + 2, q);
    } else if q <= -1 {
      MulMonotone(b, b, 1, -q);
    }
  }

  lemma CeilIsCeilDiv(a: int, b: int)
    requires a >= 0 && b > 0
    ensures Ceil(a as real / b as real) == CeilDiv(a, b)
  {
    var q, r := a / b, a % b;
    assert a == b * q + r;
    RealQuotient(a, b, q, r);
    if r == 0 {
      DivUnique(a + b - 1, b, q, b - 1);
    } else {
      DivUnique(a + b - 1, b, q + 1, r - 1);
    }
  }

  lemma RealQuotient(a: int, b: int, q: int, r: int)
    requires b > 0 && 0 <= r < b && a == b * q + r
    ensures Ceil(a as real / b as real) == if r == 0 then q else q + 1
  {
    var f := r as real / b as real;
    assert f * b as real == r as real;
    assert 0.0 <= f < 1.0 && (r == 0 <==> f == 0.0);
    assert (q as real + f) * b as real == a as real by {
      assert (b * q) as real == q as real * b as real;
    }
    assert a as real / b as real == q as real + f;
  }

  // ---- the packet

  lemma PayloadSymbolsBound(bw: u8, sf: u8, cr: u8, noHeader: bool, noCrc: bool, size: u8)
    requires Accepted(bw, sf, cr)
    ensures 0 <= PayloadSymbols(bw, sf, cr, noHeader, noCrc, size) <= 8 * 2200
  {
    var a, b := PayloadBits(sf, noHeader, noCrc, size), BitsPerBlock(sf, SymbolUs(bw, sf));
    CeilDivBound(a, b);
    MulMonotone(CeilDiv(a, b), 2200, cr + 4, 8);
  }

  lemma FitsUint32(bw: u8, sf: u8, cr: u8, preamble: u16, noHeader: bool, noCrc: bool, size: u8)
    requires Accepted(bw, sf, cr)
    ensures 0 <= Quarters(QuarterSymbols(bw, sf, cr, preamble, noHeader, noCrc, size), SymbolUs(bw, sf)) <= MAX_TOA_US
  {
    PayloadSymbolsBound(bw, sf, cr, noHeader, noCrc, size);
    SymbolRange(bw, sf);
    ProductFits(QuarterSymbols(bw, sf, cr, preamble, noHeader, noCrc, size), SymbolUs(bw, sf));
  }

  lemma ProductFits(n: int, t: int)
    requires 0 <= n <= 4 * 0x1_0000 + 57 + 4 * 8 * 2200
    requires 0 <= t <= 32768 && t % 4 == 0
    ensures 0 <= Quarters(n, t) <= MAX_TOA_US
  {
    var m := t / 4;
    assert t == 4 * m;
    assert n * t == 4 * (n * m);
    MulMonotone(n, 4 * 0x1_0000 + 57 + 4 * 8 * 2200, m, 8192);
  }

  /** The main result: the integer code gives exactly the data sheet's duration if and only if the setting
      is not SF12 at 62.5 kHz; there it always answers 0. */
  lemma TimeOnAirIsExactIff(bw: u8, sf: u8, cr: u8, preamble: u16, noHeader: bool, noCrc: bool, size: u8)
    requires Accepted(bw, sf, cr)
    ensures (PacketTimeOnAir(bw, sf, cr, preamble, noHeader, noCrc, size) as real
             == DataSheetUs(bw, sf, cr, preamble, noHeader, noCrc, size)) <==> !SymbolWraps(bw, sf)
    ensures SymbolWraps(bw, sf) ==> PacketTimeOnAir(bw, sf, cr, preamble, noHeader, noCrc, size) == 0
    ensures DataSheetUs(bw, sf, cr, preamble, noHeader, noCrc, size) > 0.0
  {
    if SymbolWraps(bw, sf) {
      ZeroWhenSymbolWraps(bw, sf, cr, preamble, noHeader, noCrc, size);
    } else {
      ExactWhenSymbolFits(bw, sf, cr, preamble, noHeader, noCrc, size);
    }
    DataSheetPositive(bw, sf, cr, preamble, noHeader, noCrc, size);
  }

  lemma ZeroWhenSymbolWraps(bw: u8, sf: u8, cr: u8, preamble: u16, noHeader: bool, noCrc: bool, size: u8)
    requires Accepted(bw, sf, cr) && SymbolWraps(bw, sf)
    ensures PacketTimeOnAir(bw, sf, cr, preamble, noHeader, noCrc, size) == 0
  {
    SymbolRange(bw, sf);
  }

  lemma DataSheetPositive(bw: u8, sf: u8, cr: u8, preamble: u16, noHeader: bool, noCrc: bool, size: u8)
    requires Accepted(bw, sf, cr)
    ensures DataSheetUs(bw, sf, cr, preamble, noHeader, noCrc, size) > 0.0
  {
    SymbolIsExact(bw, sf);
    DataSheetSymbolsPositive(bw, sf, cr, preamble, noHeader, noCrc, size);
    RealProductPositive(DataSheetSymbols(bw, sf, cr, preamble, noHeader, noCrc, size), SymbolSeconds(bw, sf));
  }

  lemma RealProductPositive(x: real, y: real)
    requires x > 0.0 && y > 0.0
    ensures Micros(x, y) > 0.0
  {
  }

  lemma ExactWhenSymbolFits(bw: u8, sf: u8, cr: u8, preamble: u16, noHeader: bool, noCrc: bool, size: u8)
    requires Accepted(bw, sf, cr) && !SymbolWraps(bw, sf)
    ensures PacketTimeOnAir(bw, sf, cr, preamble, noHeader, noCrc, size) as real
            == DataSheetUs(bw, sf, cr, preamble, noHeader, noCrc, size)
  {
    SymbolIsExact(bw, sf);
    SymbolRange(bw, sf);
    SymbolsAgree(bw, sf, cr, preamble, noHeader, noCrc, size);
    QuarterProduct(QuarterSymbols(bw, sf, cr, preamble, noHeader, noCrc, size), SymbolUs(bw, sf),
                   DataSheetSymbols(bw, sf, cr, preamble, noHeader, noCrc, size), SymbolSeconds(bw, sf));
  }

  lemma QuarterProduct(n: int, t: int, ds: real, sec: real)
    requires t % 4 == 0 && n as real / 4.0 == ds && t as real == sec * 1000000.0
    ensures Quarters(n, t) as real == Micros(ds, sec)
  {
    var m := n * t;
    assert m == 4 * (n * (t / 4));
    assert (n as real) * (t as real) == m as real;
    assert ds * 4.0 * (sec * 1000000.0) == 4.0 * (ds * sec * 1000000.0);
  }

  lemma SymbolsAgree(bw: u8, sf: u8, cr: u8, preamble: u16, noHeader: bool, noCrc: bool, size: u8)
    requires Accepted(bw, sf, cr) && !SymbolWraps(bw, sf)
    ensures QuarterSymbols(bw, sf, cr, preamble, noHeader, noCrc, size) as real / 4.0
            == DataSheetSymbols(bw, sf, cr, preamble, noHeader, noCrc, size)
  {
    LdroAgrees(bw, sf);
    BitsAgree(sf, noHeader, noCrc, size);
    CeilIsCeilDiv(PayloadBits(sf, noHeader, noCrc, size), BitsPerBlock(sf, SymbolUs(bw, sf)));
  }

  lemma BitsAgree(sf: u8, noHeader: bool, noCrc: bool, size: u8)
    requires IsLoraDr(sf)
    ensures PayloadBits(sf, noHeader, noCrc, size) as real == Max(DataSheetBits(sf, noHeader, noCrc, size), 0.0)
  {
  }

  lemma DataSheetSymbolsPositive(bw: u8, sf: u8, cr: u8, preamble: u16, noHeader: bool, noCrc: bool, size: u8)
    requires Accepted(bw, sf, cr)
    ensures DataSheetSymbols(bw, sf, cr, preamble, noHeader, noCrc, size) > 0.0
  {
    BitsAgree(sf, noHeader, noCrc, size);
    var a, b := PayloadBits(sf, noHeader, noCrc, size), 4 * (sf - DataSheetLdro(bw, sf));
    CeilIsCeilDiv(a, b);
    CeilDivBound(a, b);
    MulMonotone(0, CeilDiv(a, b), 0, cr + 4);
  }

  /** A longer payload or a stronger code never shortens a packet. */
  lemma TimeOnAirIsMonotone(bw: u8, sf: u8, cr: u8, cr': u8, preamble: u16, noHeader: bool, noCrc: bool, size: u8,
      size': u8)
    requires Accepted(bw, sf, cr) && Accepted(bw, sf, cr')
    requires cr <= cr' && size <= size'
    ensures PacketTimeOnAir(bw, sf, cr, preamble, noHeader, noCrc, size)
         <= PacketTimeOnAir(bw, sf, cr', preamble, noHeader, noCrc, size')
  {
    var a, a' := PayloadBits(sf, noHeader, noCrc, size), PayloadBits(sf, noHeader, noCrc, size');
    var b := BitsPerBlock(sf, SymbolUs(bw, sf));
    DivMonotone(a + b - 1, a' + b - 1, b);
    CeilDivBound(a, b);
    MulMonotone(CeilDiv(a, b), CeilDiv(a', b), cr + 4, cr' + 4);
    PayloadSymbolsBound(bw, sf, cr, noHeader, noCrc, size);
    ScaledMonotone(QuarterSymbols(bw, sf, cr, preamble, noHeader, noCrc, size),
                   QuarterSymbols(bw, sf, cr', preamble, noHeader, noCrc, size'), SymbolUs(bw, sf));
  }

  lemma ScaledMonotone(n: int, n': int, t: int)
    requires 0 <= n <= n' && 0 <= t
    ensures Quarters(n, t) <= Quarters(n', t)
  {
    MulMonotone(n, n', t, t);
    DivMonotone(n * t, n' * t, 4);
  }
}
