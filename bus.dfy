/** The I2C transport the MPR121 driver talks through (the `i2c-bus`
    package's readByteSync, readWordSync and writeByteSync), modelled
    abstractly: every transaction is appended to a log, and what a read
    returns comes from an oracle fixed when the session is opened. */
module I2cBus {

  /** An unsigned 8-bit value, as the bus carries it. */
  type Byte = x: int | 0 <= x < 0x100

  /** An unsigned 16-bit value, as a word read returns it. */
  type Word = x: int | 0 <= x < 0x1_0000

  /** One byte written to register `reg` of the device at `addr`. */
  datatype Write = Write(addr: int, reg: nat, value: Byte)

  /** One read request: a single byte or a 16-bit word at register `reg`.
      `writesBefore` is how many writes the session had made when the read
      was issued, which places every read among the writes. */
  datatype Read =
    | ReadByte(addr: int, reg: nat, writesBefore: nat)
    | ReadWord(addr: int, reg: nat, writesBefore: nat)

  /** A value that may be absent. */
  datatype Option<T> = None | Some(value: T)

  /** Does write w go to register `reg` of the device at `addr`? */
  predicate Targets(w: Write, addr: int, reg: nat) {
    w.addr == addr && w.reg == reg
  }

  /** The value last written to register `reg` of the device at `addr` in
      the log ws, or None when ws never writes that register. */
  function LastWrite(ws: seq<Write>, addr: int, reg: nat): Option<Byte>
  {
    if ws == [] then None
    else if Targets(ws[|ws| - 1], addr, reg) then Some(ws[|ws| - 1].value)
    else LastWrite(ws[..|ws| - 1], addr, reg)
  }

  /** An open bus session. The oracles say what the n-th read of the session
      returns when it asks the device at `addr` for register `reg`, so the
      answers may differ from one read to the next, as a real sensor's do. */
  class Bus {
    var writeLog: seq<Write>
    var readLog: seq<Read>
    const byteAt: (nat, int, nat) -> Byte
    const wordAt: (nat, int, nat) -> Word

    constructor (byteAt: (nat, int, nat) -> Byte, wordAt: (nat, int, nat) -> Word)
      ensures writeLog == [] && readLog == []
      ensures this.byteAt == byteAt && this.wordAt == wordAt
    {
      writeLog, readLog := [], [];
      this.byteAt, this.wordAt := byteAt, wordAt;
    }

    /** readByteSync(addr, reg): one byte from the oracle; no write. */
    method ReadByteSync(addr: int, reg: nat) returns (b: Byte)
      modifies this
      ensures b == byteAt(|old(readLog)|, addr, reg)
      ensures readLog == old(readLog) + [ReadByte(addr, reg, |old(writeLog)|)]
      ensures writeLog == old(writeLog)
    {
      b := byteAt(|readLog|, addr, reg);
      readLog := readLog + [ReadByte(addr, reg, |writeLog|)];
    }

    /** readWordSync(addr, reg): one word from the oracle; no write. */
    method ReadWordSync(addr: int, reg: nat) returns (w: Word)
      modifies this
      ensures w == wordAt(|old(readLog)|, addr, reg)
      ensures readLog == old(readLog) + [ReadWord(addr, reg, |old(writeLog)|)]
      ensures writeLog == old(writeLog)
    {
      w := wordAt(|readLog|, addr, reg);
      readLog := readLog + [ReadWord(addr, reg, |writeLog|)];
    }

    /** writeByteSync(addr, reg, value): the write is logged; no read. */
    method WriteByteSync(addr: int, reg: nat, value: Byte)
      modifies this
      ensures writeLog == old(writeLog) + [Write(addr, reg, value)]
      ensures readLog == old(readLog)
    {
      writeLog := writeLog + [Write(addr, reg, value)];
    }
  }

  /** The write at index j is the last one to its register, so its value is
      the register's final value. */
  lemma {:induction false} LastWriteAt(ws: seq<Write>, addr: int, reg: nat, j: nat)
    requires j < |ws| && Targets(ws[j], addr, reg)
    requires forall k :: j < k < |ws| ==> !Targets(ws[k], addr, reg)
    ensures LastWrite(ws, addr, reg) == Some(ws[j].value)
    decreases |ws|
  {
    if j < |ws| - 1 {
      LastWriteAt(ws[..|ws| - 1], addr, reg, j);
    }
  }

  /** A log that never writes a register leaves it without a final value. */
  lemma {:induction false} LastWriteNone(ws: seq<Write>, addr: int, reg: nat)
    requires forall k :: 0 <= k < |ws| ==> !Targets(ws[k], addr, reg)
    ensures LastWrite(ws, addr, reg) == None
    decreases |ws|
  {
    if ws != [] {
      LastWriteNone(ws[..|ws| - 1], addr, reg);
    }
  }

  /** In a log made of two parts, the second part's last write wins; the
      first part decides only the registers the second never writes. */
  lemma {:induction false} LastWriteAppend(a: seq<Write>, b: seq<Write>, addr: int, reg: nat)
    ensures LastWrite(a + b, addr, reg)
         == if LastWrite(b, addr, reg).Some? then LastWrite(b, addr, reg) else LastWrite(a, addr, reg)
    decreases |b|
  {
    if b == [] {
      assert a + b == a;
    } else {
      var b' := b[..|b| - 1];
      assert (a + b)[..|a + b| - 1] == a + b';
      LastWriteAppend(a, b', addr, reg);
    }
  }
}
