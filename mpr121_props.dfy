/** What the MPR121 driver's write sequences and decoders guarantee: the
    layout of the threshold writes, the order of the reset sequence, the value
    each register holds once reset has run, that running reset again changes
    nothing, and that the touch decoders read the intended status bits. */
module Mpr121Properties {
  import opened I2cBus
  import opened JsBits
  import opened Mpr121

  /** The value each register was last given by a successful reset, listed
      by register rather than in write order. */
  function ValueAfterReset(reg: nat): Option<Byte> {
    if reg == SOFTRESET then Some(SOFTRESET_VALUE)
    else if TOUCHTH_0 <= reg < TOUCHTH_0 + 2 * CHANNELS then
      Some(if (reg - TOUCHTH_0) % 2 == 0 then DEFAULT_TOUCH else DEFAULT_RELEASE)
    else if reg == MHDR || reg == NHDR || reg == MHDF || reg == NCLF then Some(0x01)
    else if reg == NCLR then Some(0x0E)
    else if reg == NHDF then Some(0x05)
    else if reg == FDLR || reg == FDLF || reg == NHDT || reg == NCLT || reg == FDLT then Some(0x00)
    else if reg == DEBOUNCE then Some(0x00)
    else if reg == CONFIG1 then Some(0x10)
    else if reg == CONFIG2 then Some(0x20)
    else if reg == ECR then Some(0x8F)
    else None
  }

  /** The k-th threshold write goes to register TOUCHTH_0 + k: touch
      thresholds at even offsets, release thresholds at odd ones. */
  lemma {:induction false} ThresholdWriteAt(addr: int, touch: Byte, release: Byte, n: nat, k: nat)
    requires k < 2 * n
    ensures ThresholdWrites(addr, touch, release, n)[k]
         == Write(addr, TOUCHTH_0 + k, if k % 2 == 0 then touch else release)
  {
    if k < 2 * (n - 1) {
      ThresholdWriteAt(addr, touch, release, n - 1, k);
    }
  }

  /** set_thresholds writes the 26 registers 0x41 to 0x5A, each once and in
      increasing order, and never reaches DEBOUNCE (0x5B). */
  lemma ThresholdRegisters(addr: int, touch: Byte, release: Byte, k: nat)
    requires k < |ThresholdWrites(addr, touch, release, CHANNELS)|
    ensures |ThresholdWrites(addr, touch, release, CHANNELS)| == 26
    ensures ThresholdWrites(addr, touch, release, CHANNELS)[k].reg == 0x41 + k
    ensures 0x41 <= ThresholdWrites(addr, touch, release, CHANNELS)[k].reg <= 0x5A < DEBOUNCE
  {
    ThresholdWriteAt(addr, touch, release, CHANNELS, k);
  }

  /** After set_thresholds on channels 0 to n - 1, each threshold register
      holds the touch or release value, and no other register was written. */
  lemma LastWriteThresholds(addr: int, touch: Byte, release: Byte, n: nat, reg: nat)
    ensures LastWrite(ThresholdWrites(addr, touch, release, n), addr, reg)
         == if TOUCHTH_0 <= reg < TOUCHTH_0 + 2 * n then
              Some(if (reg - TOUCHTH_0) % 2 == 0 then touch else release)
            else None
  {
    var ws := ThresholdWrites(addr, touch, release, n);
    forall k | 0 <= k < |ws|
      ensures ws[k] == Write(addr, TOUCHTH_0 + k, if k % 2 == 0 then touch else release)
    {
      ThresholdWriteAt(addr, touch, release, n, k);
    }
    if TOUCHTH_0 <= reg < TOUCHTH_0 + 2 * n {
      LastWriteAt(ws, addr, reg, reg - TOUCHTH_0);
    } else {
      LastWriteNone(ws, addr, reg);
    }
  }

  /** Final values of the two writes before the presence check. */
  lemma LastWritePrologue(addr: int, reg: nat)
    ensures LastWrite(ResetPrologue(addr), addr, reg)
         == if reg == SOFTRESET then Some(SOFTRESET_VALUE) else if reg == ECR then Some(0x00) else None
  {
    var ws := ResetPrologue(addr);
    if reg == SOFTRESET {
      LastWriteAt(ws, addr, reg, 0);
    } else if reg == ECR {
      LastWriteAt(ws, addr, reg, 1);
    } else {
      LastWriteNone(ws, addr, reg);
    }
  }

  /** The filter block writes MHDR to FDLT, each once, with the defaults. */
  lemma LastWriteFilter(addr: int, reg: nat)
    ensures LastWrite(FilterWrites(addr), addr, reg)
         == if MHDR <= reg <= FDLT then ValueAfterReset(reg) else None
  {
    var ws := FilterWrites(addr);
    if MHDR <= reg <= FDLT {
      LastWriteAt(ws, addr, reg, reg - MHDR);
    } else {
      LastWriteNone(ws, addr, reg);
    }
  }

  /** The closing block writes DEBOUNCE, CONFIG1, CONFIG2 and ECR once each. */
  lemma LastWriteConfig(addr: int, reg: nat)
    ensures LastWrite(ConfigWrites(addr), addr, reg)
         == if DEBOUNCE <= reg <= ECR then ValueAfterReset(reg) else None
  {
    var ws := ConfigWrites(addr);
    if DEBOUNCE <= reg <= ECR {
      LastWriteAt(ws, addr, reg, reg - DEBOUNCE);
    } else {
      LastWriteNone(ws, addr, reg);
    }
  }

  /** Reset's order: SOFTRESET = 0x63 and ECR = 0 always come first. When
      CONFIG2 did not read 0x24 nothing else is written. Otherwise the 26
      threshold writes with (12, 6) follow, then the filter block, then
      DEBOUNCE, CONFIG1, CONFIG2, and last ECR = 0x8F. */
  lemma ResetOrder(addr: int, config2: Byte)
    ensures var ws := ResetWrites(addr, config2);
      |ws| >= 2
      && ws[0] == Write(addr, SOFTRESET, SOFTRESET_VALUE)
      && ws[1] == Write(addr, ECR, 0x00)
      && (config2 != CONFIG2_AFTER_RESET ==> |ws| == 2)
      && (config2 == CONFIG2_AFTER_RESET ==>
            |ws| == 43
            && (forall k :: 0 <= k < 26 ==>
                  ws[2 + k] == Write(addr, TOUCHTH_0 + k, if k % 2 == 0 then DEFAULT_TOUCH else DEFAULT_RELEASE))
            && ws[28..39] == FilterWrites(addr)
            && ws[39..] == ConfigWrites(addr)
            && ws[42] == Write(addr, ECR, 0x8F))
  {
    var ws := ResetWrites(addr, config2);
    if config2 == CONFIG2_AFTER_RESET {
      var ts := ThresholdWrites(addr, DEFAULT_TOUCH, DEFAULT_RELEASE, CHANNELS);
      assert ws == ResetPrologue(addr) + ts + FilterWrites(addr) + ConfigWrites(addr);
      forall k | 0 <= k < 26
        ensures ws[2 + k] == Write(addr, TOUCHTH_0 + k, if k % 2 == 0 then DEFAULT_TOUCH else DEFAULT_RELEASE)
      {
        ThresholdWriteAt(addr, DEFAULT_TOUCH, DEFAULT_RELEASE, CHANNELS, k);
        assert ws[2 + k] == ts[k];
      }
    }
  }

  /** Once a successful reset has run, every register it touches holds its
      documented value (ECR ends at 0x8F although it was first set to 0), and
      it writes no other register of the device. */
  lemma ResetFinalValues(addr: int, reg: nat)
    ensures LastWrite(ResetWrites(addr, CONFIG2_AFTER_RESET), addr, reg) == ValueAfterReset(reg)
  {
    var p, t := ResetPrologue(addr), ThresholdWrites(addr, DEFAULT_TOUCH, DEFAULT_RELEASE, CHANNELS);
    var f, c := FilterWrites(addr), ConfigWrites(addr);
    assert ResetWrites(addr, CONFIG2_AFTER_RESET) == p + t + f + c;
    LastWriteAppend(p + t + f, c, addr, reg);
    LastWriteAppend(p + t, f, addr, reg);
    LastWriteAppend(p, t, addr, reg);
    LastWritePrologue(addr, reg);
    LastWriteThresholds(addr, DEFAULT_TOUCH, DEFAULT_RELEASE, CHANNELS, reg);
    LastWriteFilter(addr, reg);
    LastWriteConfig(addr, reg);
  }

  /** Whatever was written before, a successful reset leaves every register
      it programs at its documented value; so running it a second time (with
      the same CONFIG2 answer) leaves every register as the first run did. */
  lemma ResetIdempotent(log: seq<Write>, addr: int, reg: nat)
    ensures ValueAfterReset(reg).Some? ==>
              LastWrite(log + ResetWrites(addr, CONFIG2_AFTER_RESET), addr, reg) == ValueAfterReset(reg)
    ensures var rw := ResetWrites(addr, CONFIG2_AFTER_RESET);
              LastWrite(log + rw + rw, addr, reg) == LastWrite(log + rw, addr, reg)
  {
    var rw := ResetWrites(addr, CONFIG2_AFTER_RESET);
    ResetFinalValues(addr, reg);
    LastWriteAppend(log, rw, addr, reg);
    LastWriteAppend(log + rw, rw, addr, reg);
  }

  /** A failed reset programs nothing beyond SOFTRESET and ECR = 0: every
      other register keeps whatever was last written before it. */
  lemma FailedResetWritesOnlyPrologue(log: seq<Write>, addr: int, config2: Byte, reg: nat)
    requires config2 != CONFIG2_AFTER_RESET
    requires reg != SOFTRESET && reg != ECR
    ensures LastWrite(log + ResetWrites(addr, config2), addr, reg) == LastWrite(log, addr, reg)
  {
    assert ResetWrites(addr, config2) == ResetPrologue(addr);
    LastWriteAppend(log, ResetPrologue(addr), addr, reg);
    LastWritePrologue(addr, reg);
  }

  /** Bit i of touched() is bit i of the status word for the twelve
      electrodes and always clear above them. */
  lemma TouchedBitsAt(raw: Word, i: nat)
    ensures Bit(TouchedBits(raw), i) == (i < PINS && Bit(raw, i))
  {
    assert 0x0FFF == Pow2(12) - 1;
    AndBit(raw, 0x0FFF, i);
    BitOfMask(12, i);
  }

  /** is_touched(pin) for pin in 0..11 reports bit pin of the raw
      touch-status word itself: the 12-bit mask never hides an electrode. */
  lemma IsTouchedReadsStatusBit(raw: Word, pin: int)
    ensures PinTouched(TouchedBits(raw), pin) == (0 <= pin < PINS && Bit(raw, pin))
  {
    if 0 <= pin < PINS {
      TouchedBitsAt(raw, pin);
    }
  }

  /** Different electrodes read different registers: the filtered-data
      pairs do not overlap each other, and baseline bytes are one per pin. */
  lemma ReadRegistersDistinct(p: int, q: int)
    requires 0 <= p < PINS && 0 <= q < PINS && p != q
    ensures FilteredDataRegister(p) != FilteredDataRegister(q)
    ensures FilteredDataRegister(p) + 1 != FilteredDataRegister(q)
    ensures BaselineRegister(p) != BaselineRegister(q)
  {
  }
}
