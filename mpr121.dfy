/** The MPR121 capacitive-touch driver: the chip's register map, the reset
    sequence that configures it, threshold programming, and the decoders that
    turn status, filtered-data and baseline registers into values. The bus
    is the abstract session of module I2cBus. */
module Mpr121 {
  import opened I2cBus
  import opened JsBits

  // Register addresses and fixed values of the chip.
  const I2CADDR_DEFAULT: int := 0x5A
  const TOUCHSTATUS_L: nat := 0x00
  const TOUCHSTATUS_H: nat := 0x01
  const FILTDATA_0L: nat := 0x04
  const FILTDATA_0H: nat := 0x05
  const BASELINE_0: nat := 0x1E
  const MHDR: nat := 0x2B
  const NHDR: nat := 0x2C
  const NCLR: nat := 0x2D
  const FDLR: nat := 0x2E
  const MHDF: nat := 0x2F
  const NHDF: nat := 0x30
  const NCLF: nat := 0x31
  const FDLF: nat := 0x32
  const NHDT: nat := 0x33
  const NCLT: nat := 0x34
  const FDLT: nat := 0x35
  const TOUCHTH_0: nat := 0x41
  const RELEASETH_0: nat := 0x42
  const DEBOUNCE: nat := 0x5B
  const CONFIG1: nat := 0x5C
  const CONFIG2: nat := 0x5D
  const ECR: nat := 0x5E
  const SOFTRESET: nat := 0x80

  /** Value written to SOFTRESET to reset the chip. */
  const SOFTRESET_VALUE: Byte := 0x63
  /** What CONFIG2 reads after a soft reset when a chip is present. */
  const CONFIG2_AFTER_RESET: Byte := 0x24
  /** Thresholds programmed by the reset sequence. */
  const DEFAULT_TOUCH: Byte := 12
  const DEFAULT_RELEASE: Byte := 6
  /** Bus used when none is given. */
  const DEFAULT_BUS_NUMBER: int := 1
  /** Electrodes 0 to 11 have touch status, filtered data and a baseline. */
  const PINS: nat := 12
  /** Threshold slots 0 to 12: the twelve electrodes and the proximity channel. */
  const CHANNELS: nat := 13

  /** What set_thresholds returns: `false` when it rejects its arguments,
      nothing (`undefined`) when it has programmed all channels. */
  datatype ThresholdResult = ReturnedFalse | ReturnedUndefined

  /** `address || MPR121_I2CADDR_DEFAULT`: both a missing address and the
      falsy address 0 fall back to the default. */
  function ChooseAddress(address: Option<int>): (r: int)
    ensures r != 0
    ensures address.Some? && address.value != 0 ==> r == address.value
    ensures address.None? || address.value == 0 ==> r == I2CADDR_DEFAULT
  {
    match address
    case Some(a) => if a != 0 then a else I2CADDR_DEFAULT
    case None => I2CADDR_DEFAULT
  }

  /** A bus number given by the caller is kept, even 0; a missing one
      (undefined or null) gives bus 1. */
  function ChooseBusNumber(busNumber: Option<int>): (r: int)
    ensures busNumber.Some? ==> r == busNumber.value
    ensures busNumber.None? ==> r == DEFAULT_BUS_NUMBER
  {
    if busNumber.Some? then busNumber.value else DEFAULT_BUS_NUMBER
  }

  /** `value & 0xFF`, what _write8Bits puts on the bus. JavaScript's `&`
      works on the 32-bit two's complement of value, whose low 8 bits are
      the residue of value modulo 256 for every integer. */
  function LowByte(value: int): (b: Byte)
    ensures 0 <= value < 0x100 ==> b == value
    ensures (value - b) % 0x100 == 0
  {
    value % 0x100
  }

  /** For non-negative values the residue is the bitwise and with 0xFF. */
  lemma LowByteIsMask(value: nat)
    ensures LowByte(value) == And(value, 0xFF)
  {
    AndMask(value, 8);
  }

  /** `t & 0x0FFF`: the 12 electrode bits of the touch-status word. */
  function TouchedBits(raw: Word): (t: nat)
    ensures t < 0x1000
    ensures t == raw % 0x1000
  {
    AndMask(raw, 12);
    And(raw, 0x0FFF)
  }

  /** `(t & (1 << pin)) > 0` behind the pin guard of is_touched: a pin
      outside 0..11 is never touched, any other is bit `pin` of t. */
  function PinTouched(t: nat, pin: int): (b: bool)
    ensures b <==> 0 <= pin < PINS && Bit(t, pin)
  {
    if pin < 0 || pin >= PINS then false
    else
      AndPow2(t, pin);
      And(t, Pow2(pin)) > 0
  }

  /** `bl << 2`: the chip keeps the top 8 of the 10 baseline bits. A byte
      shifted by 2 stays far below 2^31, so the 32-bit shift is a product. */
  function BaselineValue(bl: Byte): (v: nat)
    ensures v % 4 == 0 && v / 4 == bl
    ensures v <= 1020
  {
    bl * 4
  }

  /** Low byte of pin's 16-bit filtered-data register pair. */
  function FilteredDataRegister(pin: int): (reg: nat)
    requires 0 <= pin < PINS
    ensures FILTDATA_0L <= reg && reg + 1 < BASELINE_0
    ensures (reg - FILTDATA_0L) % 2 == 0 && (reg - FILTDATA_0L) / 2 == pin
  {
    FILTDATA_0L + pin * 2
  }

  /** Pin's baseline register. */
  function BaselineRegister(pin: int): (reg: nat)
    requires 0 <= pin < PINS
    ensures BASELINE_0 <= reg < MHDR
    ensures reg - BASELINE_0 == pin
  {
    BASELINE_0 + pin
  }

  /** The writes set_thresholds issues for channels 0 to n - 1, in order:
      for each channel its touch threshold, then its release threshold. */
  function ThresholdWrites(addr: int, touch: Byte, release: Byte, n: nat): (ws: seq<Write>)
    ensures |ws| == 2 * n
  {
    if n == 0 then []
    else
      ThresholdWrites(addr, touch, release, n - 1)
      + [Write(addr, TOUCHTH_0 + 2 * (n - 1), touch), Write(addr, RELEASETH_0 + 2 * (n - 1), release)]
  }

  /** Soft reset, then electrodes off: written before the presence check. */
  function ResetPrologue(addr: int): seq<Write> {
    [Write(addr, SOFTRESET, SOFTRESET_VALUE), Write(addr, ECR, 0x00)]
  }

  /** The baseline-filter defaults, MHDR to FDLT. */
  function FilterWrites(addr: int): seq<Write> {
    [Write(addr, MHDR, 0x01), Write(addr, NHDR, 0x01), Write(addr, NCLR, 0x0E), Write(addr, FDLR, 0x00),
     Write(addr, MHDF, 0x01), Write(addr, NHDF, 0x05), Write(addr, NCLF, 0x01), Write(addr, FDLF, 0x00),
     Write(addr, NHDT, 0x00), Write(addr, NCLT, 0x00), Write(addr, FDLT, 0x00)]
  }

  /** No debounce, 16 uA charge current, 0.5 us encoding with a 1 ms period,
      then all electrodes and baseline tracking on. */
  function ConfigWrites(addr: int): seq<Write> {
    [Write(addr, DEBOUNCE, 0), Write(addr, CONFIG1, 0x10), Write(addr, CONFIG2, 0x20), Write(addr, ECR, 0x8F)]
  }

  /** Everything reset writes to the device at addr, given what CONFIG2 read
      back after the prologue. */
  function ResetWrites(addr: int, config2: Byte): seq<Write> {
    ResetPrologue(addr)
    + if config2 == CONFIG2_AFTER_RESET then
        ThresholdWrites(addr, DEFAULT_TOUCH, DEFAULT_RELEASE, CHANNELS) + FilterWrites(addr) + ConfigWrites(addr)
      else []
  }

  /** The eleven filter writes appended one by one form FilterWrites. */
  lemma FilterWritesInOrder(log: seq<Write>, addr: int)
    ensures log + [Write(addr, MHDR, 0x01)] + [Write(addr, NHDR, 0x01)] + [Write(addr, NCLR, 0x0E)]
            + [Write(addr, FDLR, 0x00)] + [Write(addr, MHDF, 0x01)] + [Write(addr, NHDF, 0x05)]
            + [Write(addr, NCLF, 0x01)] + [Write(addr, FDLF, 0x00)] + [Write(addr, NHDT, 0x00)]
            + [Write(addr, NCLT, 0x00)] + [Write(addr, FDLT, 0x00)]
         == log + FilterWrites(addr)
  {
  }

  /** The four configuration writes appended one by one form ConfigWrites. */
  lemma ConfigWritesInOrder(log: seq<Write>, addr: int)
    ensures log + [Write(addr, DEBOUNCE, 0)] + [Write(addr, CONFIG1, 0x10)] + [Write(addr, CONFIG2, 0x20)]
            + [Write(addr, ECR, 0x8F)]
         == log + ConfigWrites(addr)
  {
  }

  /** A successful reset's writes are its four parts in order. */
  lemma ResetWritesInOrder(log: seq<Write>, addr: int)
    ensures log + ResetPrologue(addr) + ThresholdWrites(addr, DEFAULT_TOUCH, DEFAULT_RELEASE, CHANNELS)
            + FilterWrites(addr) + ConfigWrites(addr)
         == log + ResetWrites(addr, CONFIG2_AFTER_RESET)
  {
  }

  /** One sensor handle: its address, its bus number and, once begun, the
      open bus session it owns. */
  class Sensor {
    var address: int
    var busNumber: int
    var device: Bus?

    /** MPR121(address, bus_number): defaults filled in, no bus I/O yet. */
    constructor (address: Option<int>, busNumber: Option<int>)
      ensures this.address == ChooseAddress(address)
      ensures this.busNumber == ChooseBusNumber(busNumber)
      ensures device == null
    {
      this.address := ChooseAddress(address);
      this.busNumber := ChooseBusNumber(busNumber);
      device := null;
    }

    /** begin(): take the session opened on busNumber and run reset on it. */
    method Begin(session: Bus) returns (ok: bool)
      modifies this, session
      ensures device == session
      ensures address == old(address) && busNumber == old(busNumber)
      ensures ok <==> session.byteAt(|old(session.readLog)|, address, CONFIG2) == CONFIG2_AFTER_RESET
      ensures session.readLog == old(session.readLog) + [ReadByte(address, CONFIG2, |old(session.writeLog)| + 2)]
      ensures session.writeLog
           == old(session.writeLog) + ResetWrites(address, session.byteAt(|old(session.readLog)|, address, CONFIG2))
    {
      device := session;
      ok := Reset();
    }

    /** _read8Bits(reg). */
    method Read8Bits(reg: nat) returns (b: Byte)
      requires device != null
      modifies device
      ensures b == device.byteAt(|old(device.readLog)|, address, reg)
      ensures device.readLog == old(device.readLog) + [ReadByte(address, reg, |old(device.writeLog)|)]
      ensures device.writeLog == old(device.writeLog)
    {
      b := device.ReadByteSync(address, reg);
    }

    /** _read16Bits(reg). */
    method Read16Bits(reg: nat) returns (w: Word)
      requires device != null
      modifies device
      ensures w == device.wordAt(|old(device.readLog)|, address, reg)
      ensures device.readLog == old(device.readLog) + [ReadWord(address, reg, |old(device.writeLog)|)]
      ensures device.writeLog == old(device.writeLog)
    {
      w := device.ReadWordSync(address, reg);
    }

    /** _write8Bits(reg, value): only the low byte of value reaches the bus. */
    method Write8Bits(reg: nat, value: int)
      requires device != null
      modifies device
      ensures device.writeLog == old(device.writeLog) + [Write(address, reg, LowByte(value))]
      ensures device.readLog == old(device.readLog)
    {
      device.WriteByteSync(address, reg, LowByte(value));
    }

    /** config(): the raw CONFIG2 register. */
    method Config() returns (c: Byte)
      requires device != null
      modifies device
      ensures c == device.byteAt(|old(device.readLog)|, address, CONFIG2)
      ensures device.readLog == old(device.readLog) + [ReadByte(address, CONFIG2, |old(device.writeLog)|)]
      ensures device.writeLog == old(device.writeLog)
    {
      c := Read8Bits(CONFIG2);
    }

    /** reset(): soft reset, electrodes off, presence check on CONFIG2; on a
        mismatch stop there and return false, otherwise program thresholds,
        filters and configuration, switch the electrodes on and return true. */
    method Reset() returns (ok: bool)
      requires device != null
      modifies device
      ensures ok <==> device.byteAt(|old(device.readLog)|, address, CONFIG2) == CONFIG2_AFTER_RESET
      ensures device.readLog == old(device.readLog) + [ReadByte(address, CONFIG2, |old(device.writeLog)| + 2)]
      ensures device.writeLog
           == old(device.writeLog) + ResetWrites(address, device.byteAt(|old(device.readLog)|, address, CONFIG2))
    {
      Write8Bits(SOFTRESET, SOFTRESET_VALUE);
      Write8Bits(ECR, 0x00);
      ghost var afterPrologue := device.writeLog;
      assert afterPrologue == old(device.writeLog) + ResetPrologue(address);

      var c := Read8Bits(CONFIG2);
      if c != CONFIG2_AFTER_RESET {
        return false;
      }

      var _ := SetThresholds(DEFAULT_TOUCH, DEFAULT_RELEASE);
      ghost var afterThresholds := device.writeLog;
      assert afterThresholds == afterPrologue + ThresholdWrites(address, DEFAULT_TOUCH, DEFAULT_RELEASE, CHANNELS);

      Write8Bits(MHDR, 0x01);
      Write8Bits(NHDR, 0x01);
      Write8Bits(NCLR, 0x0E);
      Write8Bits(FDLR, 0x00);
      Write8Bits(MHDF, 0x01);
      Write8Bits(NHDF, 0x05);
      Write8Bits(NCLF, 0x01);
      Write8Bits(FDLF, 0x00);
      Write8Bits(NHDT, 0x00);
      Write8Bits(NCLT, 0x00);
      Write8Bits(FDLT, 0x00);
      ghost var afterFilters := device.writeLog;
      FilterWritesInOrder(afterThresholds, address);

      Write8Bits(DEBOUNCE, 0);
      Write8Bits(CONFIG1, 0x10);
      Write8Bits(CONFIG2, 0x20);
      Write8Bits(ECR, 0x8F);
      ConfigWritesInOrder(afterFilters, address);
      ResetWritesInOrder(old(device.writeLog), address);
      return true;
    }

    /** set_thresholds(touch, release): both must be in 0..255, otherwise
        nothing is written and false is returned; then every channel 0..12
        gets its touch and release threshold. */
    method SetThresholds(touch: int, release: int) returns (r: ThresholdResult)
      requires device != null
      modifies device
      ensures if 0 <= touch < 0x100 && 0 <= release < 0x100 then
                r == ReturnedUndefined
                && device.writeLog == old(device.writeLog) + ThresholdWrites(address, touch, release, CHANNELS)
              else
                r == ReturnedFalse && device.writeLog == old(device.writeLog)
      ensures device.readLog == old(device.readLog)
    {
      if touch < 0 || touch > 255 {
        return ReturnedFalse;
      }
      if release < 0 || release > 255 {
        return ReturnedFalse;
      }
      for i := 0 to CHANNELS
        invariant device.writeLog == old(device.writeLog) + ThresholdWrites(address, touch, release, i)
        invariant device.readLog == old(device.readLog)
      {
        Write8Bits(TOUCHTH_0 + 2 * i, touch);
        Write8Bits(RELEASETH_0 + 2 * i, release);
      }
      return ReturnedUndefined;
    }

    /** filtered_data(pin): the 16-bit filtered value of electrode pin, or
        false (None) without any bus traffic for a pin outside 0..11. */
    method FilteredData(pin: int) returns (r: Option<Word>)
      requires device != null
      modifies device
      ensures if 0 <= pin < PINS then
                r == Some(device.wordAt(|old(device.readLog)|, address, FilteredDataRegister(pin)))
                && device.readLog == old(device.readLog) + [ReadWord(address, FilteredDataRegister(pin), |old(device.writeLog)|)]
              else
                r == None && device.readLog == old(device.readLog)
      ensures device.writeLog == old(device.writeLog)
    {
      if pin < 0 || pin >= 12 {
        return None;
      }
      var w := Read16Bits(FILTDATA_0L + pin * 2);
      return Some(w);
    }

    /** baseline_data(pin): electrode pin's baseline byte shifted left by 2,
        or false (None) without any bus traffic for a pin outside 0..11. */
    method BaselineData(pin: int) returns (r: Option<nat>)
      requires device != null
      modifies device
      ensures if 0 <= pin < PINS then
                r == Some(BaselineValue(device.byteAt(|old(device.readLog)|, address, BaselineRegister(pin))))
                && device.readLog == old(device.readLog) + [ReadByte(address, BaselineRegister(pin), |old(device.writeLog)|)]
              else
                r == None && device.readLog == old(device.readLog)
      ensures device.writeLog == old(device.writeLog)
    {
      if pin < 0 || pin >= 12 {
        return None;
      }
      var bl := Read8Bits(BASELINE_0 + pin);
      return Some(BaselineValue(bl));
    }

    /** touched(): the touch-status word masked to its 12 electrode bits. */
    method Touched() returns (t: nat)
      requires device != null
      modifies device
      ensures t == TouchedBits(device.wordAt(|old(device.readLog)|, address, TOUCHSTATUS_L))
      ensures device.readLog == old(device.readLog) + [ReadWord(address, TOUCHSTATUS_L, |old(device.writeLog)|)]
      ensures device.writeLog == old(device.writeLog)
    {
      var raw := Read16Bits(TOUCHSTATUS_L);
      t := TouchedBits(raw);
    }

    /** is_touched(pin): bit pin of a fresh touched() for a pin in 0..11;
        false, without any bus traffic, for any other pin. */
    method IsTouched(pin: int) returns (b: bool)
      requires device != null
      modifies device
      ensures if 0 <= pin < PINS then
                b == Bit(TouchedBits(device.wordAt(|old(device.readLog)|, address, TOUCHSTATUS_L)), pin)
                && device.readLog == old(device.readLog) + [ReadWord(address, TOUCHSTATUS_L, |old(device.writeLog)|)]
              else
                !b && device.readLog == old(device.readLog)
      ensures device.writeLog == old(device.writeLog)
    {
      if pin < 0 || pin >= 12 {
        return false;
      }
      var t := Touched();
      b := PinTouched(t, pin);
    }
  }
}
