# MPR121 capacitive-touch driver, modelled in Dafny

This project models the Node.js driver for the MPR121 capacitive-touch
controller (`index.js`). The driver talks to the chip over an I2C bus. It
resets and configures the chip with a fixed sequence of register writes and
checks once that a chip is present. It can reprogram the touch and release
thresholds of all 13 channels. It decodes the touch-status, filtered-data
and baseline registers into values.

The bus is abstract (module `I2cBus`). An open session is a `Bus` object
with a **write log** and a **read log**. Each entry names the device address
and the register. Each read also records how many writes came before it, so
the order of reads and writes is part of the log. Two **read oracles** say
what the n-th read of the session returns for a given address and register,
so a test can script any sequence of chip answers. Every property is stated over these logs, the oracles and
the values returned.

Files:

- `bits.dfy` (module `JsBits`): JavaScript's `&` on operands in 0..2^31 - 1,
  where its 32-bit conversion changes nothing, as a bit-by-bit recursive
  function `And`; powers of two; `Bit`. It proves that
  masking with 2^k - 1 is the remainder modulo 2^k, that and-ing with 2^k tests
  bit k, and that `&` works bit by bit.
- `bus.dfy` (module `I2cBus`): the `i2c-bus` session (`readByteSync`,
  `readWordSync`, `writeByteSync`), plus `LastWrite`, the value a register was
  last given in a write log, with its lemmas.
- `mpr121.dfy` (module `Mpr121`): the register map, the decoders, the write
  sequences as functions, and the class `Sensor`, which models the `MPR121`
  object. It has the fields `address`, `busNumber` and `device` (the open
  session). Its methods are the driver's methods, proved against those functions.
- `mpr121_props.dfy` (module `Mpr121Properties`): lemmas about the write
  sequences and decoders. They cover the threshold layout, reset order, the
  final value of every register, idempotence of reset and touch-bit decoding.

What the driver returns and keeps:

- reset reports a failed presence check by returning `false`. The CONFIG2
  value it read is only printed.
- set_thresholds returns `false` for a touch or release value outside
  0..255 and nothing (`undefined`) once it has programmed every channel.
  filtered_data and baseline_data return `false` for a pin outside 0..11.
- The driver keeps no initialisation state. reset may run again at any
  time, and each run repeats the same writes.
- is_touched returns before calling touched() for a pin outside 0..11, so
  it does no bus read at all.

## Model

| member | source | states |
|---|---|---|
| `JsBits.And` | index.js:206-209 | `a & b` for operands below 2^31 (the driver's are 16-bit words, masks and `1 << pin`), built bit by bit; the result is at most either operand |
| `JsBits.AndMask` | index.js:206-209 | `x & (2^k - 1)` equals `x % 2^k`, for every x and k |
| `JsBits.AndPow2` | index.js:217-221 | `x & (1 << k)` is `2^k` when bit k of x is set and 0 otherwise |
| `JsBits.AndBit` | index.js:206-209 | bit i of `x & y` is set exactly when bit i is set in both x and y |
| `JsBits.BitOfMask` | index.js:208 | the mask `2^k - 1` (0x0FFF for k = 12) has exactly bits 0..k-1 set |
| `I2cBus.Bus.ReadByteSync` | index.js:227-229 | a byte read returns the oracle's answer for this read's index, address and register; it logs the read and writes nothing |
| `I2cBus.Bus.ReadWordSync` | index.js:231-233 | a word read returns the oracle's 16-bit answer; it logs the read and writes nothing |
| `I2cBus.Bus.WriteByteSync` | index.js:235-237 | a byte write is appended to the write log, with its address and register; no read |
| `I2cBus.LastWriteAppend` | index.js:235-237 | in a log made of two parts the later part's last write to a register wins; the earlier part only decides registers the later part never writes |
| `Mpr121.ChooseAddress` | index.js:68 | the falsy fallback to 0x5A: a missing address and address 0 both give 0x5A; any other address is kept; the result is never 0 |
| `Mpr121.ChooseBusNumber` | index.js:69-73 | a given bus number is kept, even 0; a missing one gives bus 1 |
| `Mpr121.LowByte` | index.js:235-237 | `value & 0xFF` is in 0..255, is congruent to value modulo 256, and is value itself when value already fits a byte |
| `Mpr121.LowByteIsMask` | index.js:236 | for non-negative values the residue equals the bitwise `value & 0xFF` |
| `Mpr121.TouchedBits` | index.js:206-209 | `t & 0x0FFF` is below 4096 and is the status word modulo 4096 (raw 0xFFFF gives 0x0FFF) |
| `Mpr121.PinTouched` | index.js:217-221 | the guarded `(t & (1 << pin)) > 0` is true exactly when pin is in 0..11 and bit pin of t is set |
| `Mpr121.BaselineValue` | index.js:196-197 | `bl << 2` is a multiple of 4 whose quotient by 4 is the byte read, at most 1020 |
| `Mpr121.FilteredDataRegister` | index.js:185 | pin's filtered-data pair starts at 0x04 + 2·pin: even offsets, one per pin, below BASELINE_0 |
| `Mpr121.BaselineRegister` | index.js:196 | pin's baseline register is 0x1E + pin, below MHDR |
| `Mpr121.ThresholdWrites` | index.js:171-174 | n channels of threshold programming are 2·n writes |
| `Mpr121.Sensor.constructor` | index.js:65-74 | a new handle has the defaulted address and bus number and no open session |
| `Mpr121.Sensor.Begin` | index.js:103-106 | begin keeps the given session, then does exactly what reset does on it, with the same result |
| `Mpr121.Sensor.Read8Bits` | index.js:227-229 | reads one byte of the handle's own address from the session |
| `Mpr121.Sensor.Read16Bits` | index.js:231-233 | reads one word of the handle's own address from the session |
| `Mpr121.Sensor.Write8Bits` | index.js:235-237 | appends exactly one write, of the low byte of value, to the handle's address |
| `Mpr121.Sensor.Config` | index.js:113-115 | returns the CONFIG2 byte and does one read and no write |
| `Mpr121.Sensor.Reset` | index.js:122-159 | one read of CONFIG2, placed after the SOFTRESET and ECR writes and before any other write; true exactly when it read 0x24; the write log grows by exactly ResetWrites for the value read (only two writes on failure) |
| `Mpr121.Sensor.SetThresholds` | index.js:167-175 | with touch and release both in 0..255 it returns undefined and appends the 26 threshold writes; otherwise it returns false and writes nothing; never reads |
| `Mpr121.Sensor.FilteredData` | index.js:183-186 | for pin 0..11 one word read at 0x04 + 2·pin, returned unchanged; otherwise false and no bus traffic |
| `Mpr121.Sensor.BaselineData` | index.js:194-198 | for pin 0..11 one byte read at 0x1E + pin, returned times 4; otherwise false and no bus traffic |
| `Mpr121.Sensor.Touched` | index.js:206-209 | one word read at 0x00, masked to 12 bits; no write |
| `Mpr121.Sensor.IsTouched` | index.js:217-221 | for pin 0..11 one fresh status read, and the result is bit pin of touched(); otherwise false with no read; never writes |
| `Mpr121Properties.ThresholdWriteAt` | index.js:171-174 | the k-th threshold write goes to register 0x41 + k, with the touch value at even k and the release value at odd k |
| `Mpr121Properties.ThresholdRegisters` | index.js:171-174 | set_thresholds writes 26 registers, 0x41..0x5A in increasing order, and none reaches DEBOUNCE (0x5B) |
| `Mpr121Properties.LastWriteThresholds` | index.js:167-175 | after the threshold writes each register 0x41.. holds touch (even offset) or release (odd offset); no other register is written |
| `Mpr121Properties.LastWritePrologue` | index.js:123-127 | the two writes before the presence check (Sensor.Reset places its CONFIG2 read right after them) leave SOFTRESET at 0x63 and ECR at 0 and write nothing else |
| `Mpr121Properties.LastWriteFilter` | index.js:138-149 | the filter block writes each of MHDR..FDLT once with 01,01,0E,00,01,05,01,00,00,00,00 |
| `Mpr121Properties.LastWriteConfig` | index.js:150-155 | the closing block writes DEBOUNCE = 0, CONFIG1 = 0x10, CONFIG2 = 0x20 and ECR = 0x8F once each |
| `Mpr121Properties.ResetOrder` | index.js:122-159 | reset writes SOFTRESET then ECR = 0 first; on a failed check nothing else; on success 43 writes: the 26 threshold writes with (12, 6), the filter block, the closing block, ECR = 0x8F last |
| `Mpr121Properties.ResetFinalValues` | index.js:136-158 | after a successful reset every register holds the value of an independent per-register table (ECR ends at 0x8F); no other register is written |
| `Mpr121Properties.ResetIdempotent` | index.js:122-159 | whatever came before, a successful reset leaves its registers at the table's values; a second reset changes no register's final value |
| `Mpr121Properties.FailedResetWritesOnlyPrologue` | index.js:129-134 | after a failed presence check every register other than SOFTRESET and ECR keeps its previous last value |
| `Mpr121Properties.TouchedBitsAt` | index.js:206-209 | bit i of touched() is bit i of the status word for i < 12 and clear for i >= 12 |
| `Mpr121Properties.IsTouchedReadsStatusBit` | index.js:217-221 | is_touched(pin) is bit pin of the raw status word for pin 0..11 and false otherwise |
| `Mpr121Properties.ReadRegistersDistinct` | index.js:183-198 | different pins read different filtered-data pairs (no overlap) and different baseline registers |

## Left out

- Opening the bus: `i2c.openSync(bus_number)` is foreign. `Sensor.Begin` takes the opened session as a parameter.
- Transport failures: `readByteSync`, `readWordSync` and `writeByteSync` can throw in the `i2c-bus` library. The model's bus never fails, so exceptions, and a reset aborted by one, are not modelled.
- Mpr121.Sensor.Reset, Read8Bits, Read16Bits, Write8Bits, Config, SetThresholds, FilteredData, BaselineData, Touched and IsTouched require an open session (`device != null`). Called before `begin`, the source throws a TypeError on the undefined `_device`, and that throw is not modelled.
- How the chip itself reacts to writes (for example, that a soft reset brings CONFIG2 back to 0x24). The oracles supply every value read instead. The final register values are the values last written, not a model of the chip.
- `reset(touch, release)` ignores its two parameters, so `Sensor.Reset` has none.
- The `console.log` diagnostic in reset is logging only.
- EventEmitter inheritance (`util.inherits`) and the unused prototype default `bus_number = "1"`, which the constructor always overrides.
- Register constants no code uses (TOUCHSTATUS_H and FILTDATA_0H are kept only to name the high bytes): CHARGECURR_0, CHARGETIME_1, AUTOCONFIG0/1, UP/LOW/TARGETLIMIT and the GPIO registers.
- example.js, a polling loop on timers with console output, adds no driver logic.
- JavaScript dynamic typing: pins, thresholds and addresses are integers here. Non-integer, string or undefined arguments are not modelled. An address is `Option<int>`, and only `None` and 0 count as falsy.
- JsBits.And matches JavaScript's `&` only for operands below 2^31; the signed 32-bit conversion of larger operands is not modelled. The driver only applies `&` to 16-bit words, the masks 0xFF and 0x0FFF, and `1 << pin` with pin below 12.
- `bl << 2` and `1 << pin` are written as products. They are exact for the operands the driver uses (a byte, and a pin below 12), where JavaScript's 32-bit shift cannot overflow.
