/**
 What the SX1261 is armed with for carrier sensing (`sx1261_lbt_start` in loragw_sx1261.c).

 The radio counts levels in steps of -0.5 dBm: a byte x stands for -x/2 dBm, both in its RSSI readings and in
 the threshold register. Sensing finds the channel busy when it reads a level above the armed one.
 */
module CarrierSense {
  import opened NativeTypes
  import opened Wrappers

  const PERMIT_ALL_DBM: i8 := 127
  const SCAN_TIME_128_US := 128
  const SCAN_TIME_5000_US := 5000

  datatype Scan = Scan(count: u16, register: u8)

  /** The sum as the `int8_t` that `sx1261_lbt_start` takes. */
  function ThresholdDbm(target: i8, offset: i8): i8 {
    (target + offset + 0x80) % 0x100 - 0x80
  }

  /** `uint8_t threshold_reg = -2 * threshold_dbm` */
  function Register(threshold: i8): u8 {
    (-2 * threshold) % 0x100
  }

  /** The level that a byte of the radio stands for. */
  function LevelDbm(x: u8): real {
    -(x as real) / 2.0
  }

  /** Does a reading block the transmission? */
  predicate Blocks(register: u8, reading: u8) {
    LevelDbm(reading) > LevelDbm(register)
  }

  /** `sx1261_lbt_start`: what is written to the radio, if the scan time is known and the write succeeds. */
  method StartScan(scanTimeUs: int, threshold: i8, writeOk: bool) returns (err: int, scan: Option<Scan>)
    ensures err == if scan.Some? then 0 else -1
    ensures scan.Some? <==> scanTimeUs in {SCAN_TIME_128_US, SCAN_TIME_5000_US} && writeOk
    ensures scan.Some? ==> scan.value == Scan(if scanTimeUs == SCAN_TIME_128_US then 24 else 715, Register(threshold))
  {
    var register := Register(threshold);
    var count: u16;
    if scanTimeUs == SCAN_TIME_128_US {
      count := 24;
    } else if scanTimeUs == SCAN_TIME_5000_US {
      count := 715;
    } else {
      return -1, None;
    }
    if !writeOk {
      return -1, None;
    }
    err, scan := 0, Some(Scan(count, register));
  }

  // ---------------------------------------------------------------- what the register means

  /** The register of a configured target and the radio's offset. */
  function Armed(target: i8, offset: i8): u8 {
    Register(ThresholdDbm(target, offset))
  }

  /** The wrap of the sum never reaches the radio: twice 256 is nothing in a byte. */
  lemma WrapDisappears(target: i8, offset: i8)
    ensures Armed(target, offset) == (-2 * (target + offset)) % 0x100
  {
    var sum, t := target + offset, ThresholdDbm(target, offset);
    if sum > 127 {
      assert t == sum - 0x100;
    } else if sum < -128 {
      assert t == sum + 0x100;
    } else {
      assert t == sum;
    }
  }

  /** The byte of a sum, range by range. */
  lemma Doubled(sum: int)
    requires -256 <= sum <= 254
    ensures (-2 * sum) % 0x100 ==
      if sum > 128 then 512 - 2 * sum else if sum > 0 then 256 - 2 * sum
      else if sum > -128 then -2 * sum else if sum > -256 then -2 * sum - 256 else 0
  {
    if sum > 128 {
      assert -2 * sum == 0x100 * -2 + (512 - 2 * sum);
    } else if sum > 0 {
      assert -2 * sum == 0x100 * -1 + (256 - 2 * sum);
    } else if sum > -128 {
    } else if sum > -256 {
      assert -2 * sum == 0x100 * 1 + (-2 * sum - 256);
    }
  }

  /** A threshold reaches the radio unchanged exactly if the register can express it. */
  lemma RegisterIsExactIff(threshold: i8)
    ensures Register(threshold) == -2 * threshold <==> -127 <= threshold <= 0
  {
    Doubled(threshold);
  }

  /** The radio is armed with the configured level exactly if that level is one it can express. */
  lemma ArmedAsConfiguredIff(target: i8, offset: i8)
    ensures LevelDbm(Armed(target, offset)) == (target + offset) as real <==> -127 <= target + offset <= 0
  {
    WrapDisappears(target, offset);
    Doubled(target + offset);
  }

  /** What a channel without sensing, which is to permit everything, is armed with. */
  lemma PermitAllLevel(offset: i8)
    ensures LevelDbm(Armed(PERMIT_ALL_DBM, offset)) ==
      if offset == -128 then -1.0
      else if offset == -127 then 0.0
      else if offset <= 1 then (offset - 1) as real
      else (offset - 129) as real
  {
    WrapDisappears(PERMIT_ALL_DBM, offset);
    Doubled(PERMIT_ALL_DBM + offset);
  }

  /** It permits every reading at two offsets only. */
  lemma PermitAllIff(offset: i8)
    ensures (forall reading: u8 :: !Blocks(Armed(PERMIT_ALL_DBM, offset), reading)) <==> offset == 1 || offset == -127
  {
    WrapDisappears(PERMIT_ALL_DBM, offset);
    Doubled(PERMIT_ALL_DBM + offset);
    var register := Armed(PERMIT_ALL_DBM, offset);
    var loudest: u8 := 0;
    assert Blocks(register, loudest) <==> register > 0;
  }

  /** It permits every reading up to a level exactly if the offset leaves it armed with at least that level. */
  lemma PermitsUpToIff(offset: i8, level: int)
    requires -127 <= level <= 0
    ensures (forall reading: u8 | LevelDbm(reading) <= level as real :: !Blocks(Armed(PERMIT_ALL_DBM, offset), reading))
      <==> (level < offset <= 1 && -126 <= offset) || level + 129 <= offset
           || offset == -127 || (offset == -128 && level <= -1)
  {
    PermitAllLevel(offset);
    var loudest: u8 := -2 * level;
    assert LevelDbm(loudest) == level as real;
    assert Blocks(Armed(PERMIT_ALL_DBM, offset), loudest) <==> level as real > LevelDbm(Armed(PERMIT_ALL_DBM, offset));
  }

  /** At an offset of 0 dB only readings of 0 and -0.5 dBm are blocked and at 1 dB none; at 2 dB all but the two
      weakest readings are, and at -60 dB a signal of -60 dBm is. */
  lemma PermitAllBlocks()
    ensures Armed(PERMIT_ALL_DBM, 0) == 2 && forall reading: u8 :: Blocks(2, reading) <==> reading < 2
    ensures Armed(PERMIT_ALL_DBM, 1) == 0 && forall reading: u8 :: !Blocks(0, reading)
    ensures Armed(PERMIT_ALL_DBM, 2) == 254 && forall reading: u8 :: Blocks(254, reading) <==> reading < 254
    ensures Armed(PERMIT_ALL_DBM, -60) == 122 && LevelDbm(120) == -60.0 && Blocks(122, 120)
  {
    assert forall register: u8, reading: u8 :: Blocks(register, reading) <==> reading < register;
  }
}
