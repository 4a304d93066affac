/**
  The I2C controller HAL (hal/src/I2C.c).

  The register block is a `Registers` object whose `bv32` fields are the
  controller's registers.  The Data register is not a plain field: a write
  pushes a byte into the controller FIFO and a read pops one, so it is modelled
  by the `fifo` sequence and the `WriteData`/`ReadData` methods.  The FIFOFULL
  and FIFOEMPTY status bits are what the hardware derives from the FIFO's
  occupancy (`StatusWord`); the other Status bits are the `Status` field.

  The module-level statics `i2c_config` and `current_transaction` are the
  fields of a `Hal` object.  Calls to the DMA controller, to the external
  interrupt controller and to the completion callback are appended to
  `Hal.trace`; what the DMA controller answers is an input (`DmacReplies`).
 */
module I2CHal {
  import opened I2CLayout

  datatype Option<T> = None | Some(value: T)

  /** C `uint16_t`. */
  type U16 = x: int | 0 <= x < 0x1_0000

  function Min(a: int, b: int): int { if a <= b then a else b }

  // ===========================================================================
  // Constants of hal/src/I2C.c:17-57
  // ===========================================================================

  const I2C_INTERRUPT_PRIORITY: nat := 1

  const I2C_TPM: bv32 := 0
  const T_SP: bv32 := 2

  const T_SUDAT_STD: bv32 := 7
  const T_SUDAT_FM: bv32 := 0
  const T_SUDAT_FM_PLUS: bv32 := 0

  const T_HDDAT_STD: bv32 := 9
  const T_HDDAT_FM: bv32 := 9
  const T_HDDAT_FM_PLUS: bv32 := 0

  const T_SCLHI_STD: bv32 := 229
  const T_SCLHI_FM: bv32 := 30
  const T_SCLHI_FM_PLUS: bv32 := 10

  const T_SCLRATIO_STD: bv32 := 0
  const T_SCLRATIO_FM: bv32 := 1
  const T_SCLRATIO_FM_PLUS: bv32 := 1

  /** The timing macros: Standard, Fast, and anything else as Fast-mode Plus. */
  function SudatFor(mode: Byte): bv32 {
    if mode == STANDARD_MODE then T_SUDAT_STD else if mode == FAST_MODE then T_SUDAT_FM else T_SUDAT_FM_PLUS
  }
  function HddatFor(mode: Byte): bv32 {
    if mode == STANDARD_MODE then T_HDDAT_STD else if mode == FAST_MODE then T_HDDAT_FM else T_HDDAT_FM_PLUS
  }
  function SclHiFor(mode: Byte): bv32 {
    if mode == STANDARD_MODE then T_SCLHI_STD else if mode == FAST_MODE then T_SCLHI_FM else T_SCLHI_FM_PLUS
  }
  function SclRatioFor(mode: Byte): bv32 {
    if mode == STANDARD_MODE then T_SCLRATIO_STD else if mode == FAST_MODE then T_SCLRATIO_FM else T_SCLRATIO_FM_PLUS
  }

  // ===========================================================================
  // The register file
  // ===========================================================================

  /** The contents of one 32-bit register. */
  datatype Word = Word(bits: bv32)

  /** A value copy of every register, the FIFO standing for Data. */
  datatype RegFile = RegFile(idRev: Word, cfg: Word, intEn: Word, status: Word, addr: Word,
                             ctrl: Word, cmd: Word, setup: Word, tpm: Word, fifo: seq<bv8>)

  /** The registers out of reset: IdRev and Cfg as the hardware reports them, every other register 0, the FIFO empty. */
  function PowerOn(idRev: bv32, cfg: bv32): RegFile {
    var zero := Word(0);
    RegFile(Word(idRev), Word(cfg), zero, zero, zero, zero, zero, zero, zero, [])
  }

  /** The FIFO depth the Cfg register reports. */
  function Capacity(cfg: bv32): nat {
    var code := GetField(cfg, CFG_FIFOSIZE_MASK, CFG_FIFOSIZE_OFFSET);
    if code == FIFO_SIZE_2 then 2 else if code == FIFO_SIZE_4 then 4 else if code == FIFO_SIZE_8 then 8 else 16
  }

  /** The capacity is the depth the HAL computes from the same code. */
  lemma CapacityIsFifoDepth(cfg: bv32)
    ensures Capacity(cfg) as bv32 == FifoDepth(GetField(cfg, CFG_FIFOSIZE_MASK, CFG_FIFOSIZE_OFFSET))
  {
    var code := GetField(cfg, CFG_FIFOSIZE_MASK, CFG_FIFOSIZE_OFFSET);
    if code == FIFO_SIZE_2 {
      assert Capacity(cfg) == 2;
    } else if code == FIFO_SIZE_4 {
      assert Capacity(cfg) == 4;
    } else if code == FIFO_SIZE_8 {
      assert Capacity(cfg) == 8;
    } else {
      assert Capacity(cfg) == 16;
    }
  }

  /** The two Status bits the hardware drives from the FIFO's occupancy. */
  const STATUS_OCCUPANCY_BITS: bv32 := STATUS_FIFOFULL_MASK | STATUS_FIFOEMPTY_MASK

  /** The FIFOFULL and FIFOEMPTY bits of a FIFO that is `full` and `empty`. */
  function OccupancyBits(full: bool, empty: bool): bv32 {
    Raised(if full then STATUS_FIFOFULL_MASK else 0, if empty then STATUS_FIFOEMPTY_MASK else 0)
  }

  /** A Status word whose FIFOFULL and FIFOEMPTY bits are `full` and `empty`, the other bits from `status`. */
  function WithOccupancy(status: bv32, full: bool, empty: bool): bv32 {
    Raised(Cleared(status, STATUS_OCCUPANCY_BITS), OccupancyBits(full, empty))
  }

  lemma WithOccupancyFull(status: bv32, full: bool, empty: bool)
    ensures AnySet(WithOccupancy(status, full, empty), STATUS_FIFOFULL_MASK) <==> full
  {
  }

  lemma WithOccupancyEmpty(status: bv32, full: bool, empty: bool)
    ensures AnySet(WithOccupancy(status, full, empty), STATUS_FIFOEMPTY_MASK) <==> empty
  {
  }

  lemma WithOccupancyKeepsOthers(status: bv32, full: bool, empty: bool)
    ensures WithOccupancy(status, full, empty) & !STATUS_OCCUPANCY_BITS == status & !STATUS_OCCUPANCY_BITS
  {
  }

  /** Status as software reads it: FIFOFULL and FIFOEMPTY follow the FIFO's occupancy. */
  function StatusWord(rf: RegFile): bv32 {
    WithOccupancy(rf.status.bits, |rf.fifo| >= Capacity(rf.cfg.bits), |rf.fifo| == 0)
  }

  /** FifoFull and FifoEmpty of hal/src/I2C.c:118-126: a test of one Status bit. */
  predicate FifoFull(rf: RegFile) { AnySet(StatusWord(rf), STATUS_FIFOFULL_MASK) }
  predicate FifoEmpty(rf: RegFile) { AnySet(StatusWord(rf), STATUS_FIFOEMPTY_MASK) }

  /** The controller never holds more bytes than its FIFO's depth. */
  ghost predicate RegFileValid(rf: RegFile) { |rf.fifo| <= Capacity(rf.cfg.bits) }

  lemma FifoFullIffAtCapacity(rf: RegFile)
    ensures FifoFull(rf) <==> |rf.fifo| >= Capacity(rf.cfg.bits)
  {
    WithOccupancyFull(rf.status.bits, |rf.fifo| >= Capacity(rf.cfg.bits), |rf.fifo| == 0);
  }

  lemma FifoEmptyIffNoBytes(rf: RegFile)
    ensures FifoEmpty(rf) <==> |rf.fifo| == 0
  {
    WithOccupancyEmpty(rf.status.bits, |rf.fifo| >= Capacity(rf.cfg.bits), |rf.fifo| == 0);
  }

  lemma StatusKeepsOtherBits(rf: RegFile)
    ensures StatusWord(rf) & !STATUS_OCCUPANCY_BITS == rf.status.bits & !STATUS_OCCUPANCY_BITS
  {
    WithOccupancyKeepsOthers(rf.status.bits, |rf.fifo| >= Capacity(rf.cfg.bits), |rf.fifo| == 0);
  }

  /**
    FIFOFULL reads set exactly when the FIFO holds its depth, FIFOEMPTY
    exactly when it holds nothing, and every other Status bit is the register's.
   */
  lemma FifoFlagsReflectOccupancy(rf: RegFile)
    ensures FifoFull(rf) <==> |rf.fifo| >= Capacity(rf.cfg.bits)
    ensures FifoEmpty(rf) <==> |rf.fifo| == 0
    ensures StatusWord(rf) & !STATUS_OCCUPANCY_BITS == rf.status.bits & !STATUS_OCCUPANCY_BITS
  {
    FifoFullIffAtCapacity(rf);
    FifoEmptyIffNoBytes(rf);
    StatusKeepsOtherBits(rf);
  }

  /** I2CEnabled and I2CCmdPending (hal/src/I2C.c:98-116). */
  predicate Enabled(setup: bv32) { AnySet(setup, SETUP_IICEN_MASK) }
  predicate CommandPending(cmd: bv32) { AnySet(cmd, CMD_CMD_MASK) }

  /** I2CEnable and I2CDisable (hal/src/I2C.c:103-111) as functions of the Setup word. */
  function WithEnabled(setup: bv32): bv32 { Raised(setup, Placed(1, SETUP_IICEN_MASK, SETUP_IICEN_OFFSET)) }
  function WithDisabled(setup: bv32): bv32 { Cleared(setup, SETUP_IICEN_MASK) }

  lemma EnableSetsIicen(setup: bv32)
    ensures Enabled(WithEnabled(setup))
  {
  }

  lemma EnableKeepsOthers(setup: bv32)
    ensures WithEnabled(setup) & !SETUP_IICEN_MASK == setup & !SETUP_IICEN_MASK
  {
  }

  lemma EnableOfEnabled(setup: bv32)
    ensures Enabled(setup) ==> WithEnabled(setup) == setup
  {
  }

  lemma DisableClearsIicen(setup: bv32)
    ensures !Enabled(WithDisabled(setup))
  {
  }

  lemma DisableKeepsOthers(setup: bv32)
    ensures WithDisabled(setup) & !SETUP_IICEN_MASK == setup & !SETUP_IICEN_MASK
  {
  }

  lemma DisableUndoesEnable(setup: bv32)
    ensures WithDisabled(WithEnabled(setup)) == WithDisabled(setup)
  {
  }

  /** "Disable DMA" and "Enable I2C DMA" of SetupDataPath. */
  function DmaDisabled(setup: bv32): bv32 { Cleared(setup, SETUP_DMAEN_MASK) }
  function DmaEnabled(setup: bv32): bv32 { Raised(setup, SETUP_DMAEN_MASK) }

  lemma DmaDisabledClearsDmaen(setup: bv32)
    ensures !AnySet(DmaDisabled(setup), SETUP_DMAEN_MASK)
  {
  }

  lemma DmaEnabledSetsDmaen(setup: bv32)
    ensures AnySet(DmaEnabled(setup), SETUP_DMAEN_MASK)
  {
  }

  lemma DmaDisabledKeepsOthers(setup: bv32)
    ensures DmaDisabled(setup) & !SETUP_DMAEN_MASK == setup & !SETUP_DMAEN_MASK
  {
  }

  lemma DmaEnabledKeepsOthers(setup: bv32)
    ensures DmaEnabled(setup) & !SETUP_DMAEN_MASK == setup & !SETUP_DMAEN_MASK
  {
  }

  /** "Disable fifo interrupts": FIFOEMPTY and FIFOFULL enables cleared, one after the other. */
  function FifoIntsDisabled(intEn: bv32): bv32 { Cleared(Cleared(intEn, INTEN_FIFOEMPTY_MASK), INTEN_FIFOFULL_MASK) }

  const INTEN_FIFO_BITS: bv32 := INTEN_FIFOEMPTY_MASK | INTEN_FIFOFULL_MASK

  lemma FifoIntsDisabledClearsEmpty(intEn: bv32)
    ensures !AnySet(FifoIntsDisabled(intEn), INTEN_FIFOEMPTY_MASK)
  {
  }

  lemma FifoIntsDisabledClearsFull(intEn: bv32)
    ensures !AnySet(FifoIntsDisabled(intEn), INTEN_FIFOFULL_MASK)
  {
  }

  lemma FifoIntsDisabledKeepsOthers(intEn: bv32)
    ensures FifoIntsDisabled(intEn) & !INTEN_FIFO_BITS == intEn & !INTEN_FIFO_BITS
  {
  }

  /** The fill and drain loops' closing step: clear the enable `m` when nothing remains. */
  function ClearedWhen(intEn: bv32, m: bv32, done: bool): bv32 {
    if done then Cleared(intEn, m) else intEn
  }

  lemma ClearedWhenReads(intEn: bv32, m: bv32, done: bool)
    ensures AnySet(ClearedWhen(intEn, m, done), m) <==> AnySet(intEn, m) && !done
  {
  }

  lemma ClearedWhenKeepsOthers(intEn: bv32, m: bv32, done: bool)
    ensures ClearedWhen(intEn, m, done) & !m == intEn & !m
  {
    if done {
      ClearBitsKeepsOthers(intEn, m);
    }
  }

  /**
    The memory-mapped register block behind an `I2C_Regs_t *` handle.  The
    source updates it in place through the handle, one register at a time;
    here each such write replaces one field of `regs`.
   */
  class Registers {
    var regs: RegFile

    constructor (idRev: bv32, cfg: bv32)
      ensures regs == PowerOn(idRev, cfg)
      ensures Valid()
    {
      regs := PowerOn(idRev, cfg);
    }

    /** The FIFO holds no more than its depth. */
    ghost predicate Valid()
      reads this
    {
      RegFileValid(regs)
    }

    /** A write of the Data register: the byte joins the back of the FIFO. */
    method WriteData(b: bv8)
      requires Valid() && |regs.fifo| < Capacity(regs.cfg.bits)
      modifies this
      ensures Valid() && regs == old(regs.(fifo := regs.fifo + [b]))
    {
      regs := regs.(fifo := regs.fifo + [b]);
    }

    /** A read of the Data register: the oldest byte leaves the FIFO. */
    method ReadData() returns (b: bv8)
      requires Valid() && |regs.fifo| > 0
      modifies this
      ensures Valid() && b == old(regs.fifo[0]) && regs == old(regs.(fifo := regs.fifo[1..]))
    {
      b := regs.fifo[0];
      regs := regs.(fifo := regs.fifo[1..]);
    }
  }

  // ===========================================================================
  // Configuration, hal/src/I2C.c:86-96
  // ===========================================================================

  /** I2CConfig: the ID/revision fields and the FIFO size in bytes. */
  datatype Config = Config(id: bv32, major: bv8, minor: bv8, fifoSize: bv8)

  /**
    The static `i2c_config` as an object: I2C_GetConfig hands out a pointer to
    it, so a later ReadHWConfig is seen through every pointer handed out.
   */
  class ConfigStore {
    var value: Config

    constructor ()
      ensures value == Config(0, 0, 0, 0)
    {
      value := Config(0, 0, 0, 0);
    }
  }

  /** What ReadHWConfig stores in `i2c_config`. */
  function HwConfig(idRev: bv32, cfg: bv32): Config {
    Config(GetField(idRev, IDREV_ID_MASK, IDREV_ID_OFFSET),
           GetField(idRev, IDREV_MAJOR_MASK, IDREV_MAJOR_OFFSET) as bv8,
           GetField(idRev, IDREV_MINOR_MASK, IDREV_MINOR_OFFSET) as bv8,
           FifoDepth(GetField(cfg, CFG_FIFOSIZE_MASK, CFG_FIFOSIZE_OFFSET)) as bv8)
  }

  /**
    The three IdRev fields are a lossless split of the register: the ID has
    24 bits, major and minor are nibbles, and packing them back gives IdRev.
   */
  lemma HwConfigSplitsIdRev(idRev: bv32, cfg: bv32)
    ensures var c := HwConfig(idRev, cfg);
      && c.id <= 0xff_ffff && c.major <= 0xf && c.minor <= 0xf
      && (c.id << 8) | ((c.major as bv32) << 4) | (c.minor as bv32) == idRev
  {
  }

  /** The FIFO size is 2, 4, 8 or 16 bytes for FIFOSIZE codes 0 to 3; the other Cfg bits do not matter. */
  lemma HwConfigFifoSize(idRev: bv32, cfg: bv32)
    ensures var size := HwConfig(idRev, cfg).fifoSize;
      && (cfg & CFG_FIFOSIZE_MASK == FIFO_SIZE_2 ==> size == 2)
      && (cfg & CFG_FIFOSIZE_MASK == FIFO_SIZE_4 ==> size == 4)
      && (cfg & CFG_FIFOSIZE_MASK == FIFO_SIZE_8 ==> size == 8)
      && (cfg & CFG_FIFOSIZE_MASK == FIFO_SIZE_16 ==> size == 16)
      && HwConfig(idRev, cfg) == HwConfig(idRev, cfg & CFG_FIFOSIZE_MASK)
  {
  }

  /** The register values of the test fixture decode as major 0xA, minor 0xB and a 16-byte FIFO. */
  lemma HwConfigOfTestFixture()
    ensures HwConfig(0x0202_10AB, 0x0000_0003) == Config(0x02_0210, 0xA, 0xB, 16)
  {
  }

  // ===========================================================================
  // DMA controller and interrupt collaborators
  // ===========================================================================

  /** DMAC_CHANNEL_I2C is defined in DMAC.h, which is not part of this model. */
  const DMAC_CHANNEL_I2C: nat

  datatype DmacReturnCode = DmacOk | DmacTerminalCount | DmacOtherCode(code: nat)

  /** What the three DMA controller calls of one SetupDataPath return. */
  datatype DmacReplies = DmacReplies(setupChannel: DmacReturnCode, setupTransfer: DmacReturnCode,
                                     enableChannel: DmacReturnCode)

  datatype AddrCtrl = AddrIncrement | AddrFixed
  datatype BurstSize = Burst1
  datatype TransferWidth = WidthByte

  datatype ChannelConfig = ChannelConfig(
    channel: nat, srcBusIndex: nat, dstBusIndex: nat, channelPriority: nat,
    srcBurstSize: BurstSize, srcTransferWidth: TransferWidth, dstTransferWidth: TransferWidth,
    srcHandshake: bool, dstHandshake: bool,
    srcAddrCtrl: AddrCtrl, dstAddrCtrl: AddrCtrl,
    srcPair: nat, dstPair: nat)

  /** A DMA address: the current transaction's buffer at an offset, or the controller's Data register. */
  datatype Endpoint = Buffer(offset: nat) | DataRegister

  datatype TransferConfig = TransferConfig(channel: nat, transferSize: nat, src: Endpoint, dst: Endpoint)

  type CallbackId = nat

  /** The calls the HAL makes into code outside it, in order. */
  datatype Event =
    | DmacSetupChannel(config: ChannelConfig, disableAbortInt: bool, disableErrorInt: bool,
                       disableTerminalCountInt: bool)
    | DmacSetupTransfer(transfer: TransferConfig)
    | DmacEnableChannel(channel: nat)
    | IrqEnabled(priority: nat)
    | IrqDisabled
    | CmplAcknowledged
    | CallbackInvoked(callback: CallbackId, status: ReturnCode)

  /** The channel configuration SetupDataPath builds (hal/src/I2C.c:194-212). */
  function ChannelConfigFor(dir: Direction): ChannelConfig {
    ChannelConfig(DMAC_CHANNEL_I2C, 0, 0, 1, Burst1, WidthByte, WidthByte,
                  dir == Rx, dir == Tx,
                  if dir == Tx then AddrIncrement else AddrFixed,
                  if dir == Tx then AddrFixed else AddrIncrement,
                  if dir == Tx then 0 else DMAC_CHANNEL_I2C,
                  if dir == Tx then DMAC_CHANNEL_I2C else 0)
  }

  /** The same channel seen with source and destination exchanged. */
  function Mirrored(c: ChannelConfig): ChannelConfig {
    c.(srcHandshake := c.dstHandshake, dstHandshake := c.srcHandshake,
       srcAddrCtrl := c.dstAddrCtrl, dstAddrCtrl := c.srcAddrCtrl,
       srcPair := c.dstPair, dstPair := c.srcPair)
  }

  /**
    A receive channel is the transmit channel mirrored: the handshaking side is
    the controller (the destination on TX, the source on RX), the memory side
    increments and the controller side stays fixed.
   */
  lemma ChannelConfigMirrorsWithDirection()
    ensures ChannelConfigFor(Rx) == Mirrored(ChannelConfigFor(Tx))
    ensures ChannelConfigFor(Tx) == Mirrored(ChannelConfigFor(Rx))
    ensures forall dir: Direction ::
      var c := ChannelConfigFor(dir);
      && (c.srcHandshake <==> dir == Rx) && (c.dstHandshake <==> dir == Tx)
      && (c.srcAddrCtrl == AddrIncrement <==> dir == Tx) && (c.dstAddrCtrl == AddrIncrement <==> dir == Rx)
      && c.srcPair == (if dir == Rx then DMAC_CHANNEL_I2C else 0)
      && c.dstPair == (if dir == Tx then DMAC_CHANNEL_I2C else 0)
      && c.channel == DMAC_CHANNEL_I2C && c.channelPriority == 1
  {
  }

  /** The transfer SetupDataPath requests (hal/src/I2C.c:222-231). */
  function TransferConfigFor(t: Transaction): TransferConfig {
    TransferConfig(DMAC_CHANNEL_I2C, t.remaining,
                   if t.dir == Tx then Buffer(t.cursor) else DataRegister,
                   if t.dir == Tx then DataRegister else Buffer(t.cursor))
  }

  /** The transfer moves every remaining byte between the buffer and Data, in the transaction's direction. */
  lemma TransferConfigFollowsTransaction(t: Transaction)
    ensures var x := TransferConfigFor(t);
      && x.transferSize == t.remaining && x.channel == DMAC_CHANNEL_I2C
      && (t.dir == Tx ==> x.src == Buffer(t.cursor) && x.dst == DataRegister)
      && (t.dir == Rx ==> x.src == DataRegister && x.dst == Buffer(t.cursor))
      && TransferConfigFor(t.(dir := Rx)) == x.(src := x.dst, dst := x.src) <== t.dir == Tx
  {
  }

  /** The callback call made when a callback is installed. */
  function CallbackEvents(callback: Option<CallbackId>, status: ReturnCode): seq<Event> {
    if callback.Some? then [CallbackInvoked(callback.value, status)] else []
  }

  // ===========================================================================
  // The transaction record, hal/src/I2C.c:59-72
  // ===========================================================================

  /**
    `current_transaction`: `data` is the caller's buffer and `cursor` the index
    the C pointer has advanced to.  The record's `mode` field is never written
    by the HAL and is left out.
   */
  datatype Transaction = Transaction(role: Role, dir: Direction, addrMode: AddressingMode, addr: bv16,
                                     path: DataPath, data: array?<bv8>, cursor: nat, remaining: nat,
                                     callback: Option<CallbackId>)

  /** The zero-initialised static. */
  const IdleTransaction: Transaction := Transaction(Slave, Tx, SevenBit, 0, UseFifo, null, 0, 0, None)

  ghost predicate TxnValid(t: Transaction) {
    && t.remaining <= MAX_DATA_COUNT
    && (t.data == null ==> t.remaining == 0)
    && (t.data != null ==> t.cursor + t.remaining <= t.data.Length)
  }

  /** The bytes still to be moved: the buffer from the cursor on, `remaining` of them. */
  function Pending(t: Transaction): (p: seq<bv8>)
    reads t.data
    requires TxnValid(t)
    ensures |p| == t.remaining
  {
    Window(t.data, t.cursor, t.remaining)
  }

  /** The `n` bytes of `data` from index `at` on (none for a null buffer). */
  function Window(data: array?<bv8>, at: nat, n: nat): (w: seq<bv8>)
    reads data
    requires data == null ==> n == 0
    requires data != null ==> at + n <= data.Length
    ensures |w| == n
  {
    if data == null then [] else data[at .. at + n]
  }

  /** `buf` with `bytes` stored from index `at` on. */
  function Store(buf: seq<bv8>, at: nat, bytes: seq<bv8>): seq<bv8>
    requires at + |bytes| <= |buf|
  {
    buf[..at] + bytes + buf[at + |bytes|..]
  }

  /** Storing one more byte is one more element update. */
  lemma StoreOneMore(buf: seq<bv8>, at: nat, bytes: seq<bv8>, k: nat)
    requires k < |bytes| && at + k < |buf|
    ensures Store(buf, at, bytes[..k + 1]) == Store(buf, at, bytes[..k])[at + k := bytes[k]]
  {
  }

  /** Sending one more byte appends it. */
  lemma TakeOneMore(front: seq<bv8>, bytes: seq<bv8>, k: nat)
    requires k < |bytes|
    ensures front + bytes[..k + 1] == (front + bytes[..k]) + [bytes[k]]
  {
    assert bytes[..k + 1] == bytes[..k] + [bytes[k]];
  }

  // ===========================================================================
  // FIFO fill and drain, hal/src/I2C.c:141-167
  // ===========================================================================

  datatype Step = Step(regs: RegFile, txn: Transaction)

  /** WriteAvailableData: what the fill loop leaves behind. */
  function Fill(rf: RegFile, t: Transaction, bytes: seq<bv8>): Step
    requires RegFileValid(rf) && |bytes| == t.remaining
  {
    var n := Min(t.remaining, Capacity(rf.cfg.bits) - |rf.fifo|);
    Step(rf.(fifo := rf.fifo + bytes[..n],
             intEn := Word(ClearedWhen(rf.intEn.bits, INTEN_FIFOEMPTY_MASK, n == t.remaining))),
         t.(cursor := t.cursor + n, remaining := t.remaining - n))
  }

  /**
    A fill moves the first pending bytes, in order, to the back of the FIFO,
    stops only when the FIFO holds its depth or nothing remains, advances the
    cursor by exactly what it moved, clears the FIFOEMPTY enable when nothing
    remains, and touches nothing else.
   */
  lemma FillMovesBytesInOrder(rf: RegFile, t: Transaction, bytes: seq<bv8>)
    requires RegFileValid(rf) && |bytes| == t.remaining
    ensures var s := Fill(rf, t, bytes);
      var moved := t.remaining - s.txn.remaining;
      && 0 <= moved <= t.remaining
      && s.txn.cursor == t.cursor + moved
      && s.regs.fifo + bytes[moved..] == rf.fifo + bytes
      && (s.txn.remaining == 0 || |s.regs.fifo| == Capacity(rf.cfg.bits))
      && RegFileValid(s.regs)
      && s.regs == rf.(fifo := s.regs.fifo,
                       intEn := Word(ClearedWhen(rf.intEn.bits, INTEN_FIFOEMPTY_MASK, s.txn.remaining == 0)))
      && s.txn == t.(cursor := s.txn.cursor, remaining := s.txn.remaining)
  {
    var s := Fill(rf, t, bytes);
    var moved := t.remaining - s.txn.remaining;
    assert bytes == bytes[..moved] + bytes[moved..];
  }

  /** A fill ends with the FIFOFULL status bit set unless it ran out of bytes. */
  lemma FillStopsWhenFull(rf: RegFile, t: Transaction, bytes: seq<bv8>)
    requires RegFileValid(rf) && |bytes| == t.remaining
    ensures var s := Fill(rf, t, bytes);
      s.txn.remaining == 0 || FifoFull(s.regs)
  {
    FillMovesBytesInOrder(rf, t, bytes);
    FifoFullIffAtCapacity(Fill(rf, t, bytes).regs);
  }

  /** After a fill the FIFOEMPTY interrupt is enabled exactly when it was and bytes remain. */
  lemma FillKeepsRefillInterrupt(rf: RegFile, t: Transaction, bytes: seq<bv8>)
    requires RegFileValid(rf) && |bytes| == t.remaining
    ensures var s := Fill(rf, t, bytes);
      AnySet(s.regs.intEn.bits, INTEN_FIFOEMPTY_MASK) <==> AnySet(rf.intEn.bits, INTEN_FIFOEMPTY_MASK) && s.txn.remaining > 0
  {
    var s := Fill(rf, t, bytes);
    FillMovesBytesInOrder(rf, t, bytes);
    ClearedWhenReads(rf.intEn.bits, INTEN_FIFOEMPTY_MASK, s.txn.remaining == 0);
  }

  /**
    Conversely, the fill is determined by how many bytes it moved: any count
    that fits the FIFO and stops only because the FIFO is full or nothing
    remains gives the fill's result.
   */
  lemma FillDeterminedByOutcome(rf: RegFile, t: Transaction, bytes: seq<bv8>, k: nat)
    requires RegFileValid(rf) && |bytes| == t.remaining
    requires k <= t.remaining && |rf.fifo| + k <= Capacity(rf.cfg.bits)
    requires k == t.remaining || |rf.fifo| + k >= Capacity(rf.cfg.bits)
    ensures Fill(rf, t, bytes)
         == Step(rf.(fifo := rf.fifo + bytes[..k],
                     intEn := Word(ClearedWhen(rf.intEn.bits, INTEN_FIFOEMPTY_MASK, k == t.remaining))),
                 t.(cursor := t.cursor + k, remaining := t.remaining - k))
  {
  }

  datatype DrainStep = DrainStep(regs: RegFile, txn: Transaction, received: seq<bv8>)

  /** ReadAvailableData: what the drain loop leaves behind and the bytes it read. */
  function Drain(rf: RegFile, t: Transaction): DrainStep {
    var n := Min(t.remaining, |rf.fifo|);
    DrainStep(rf.(fifo := rf.fifo[n..],
                  intEn := Word(ClearedWhen(rf.intEn.bits, INTEN_FIFOFULL_MASK, n == t.remaining))),
              t.(cursor := t.cursor + n, remaining := t.remaining - n),
              rf.fifo[..n])
  }

  /**
    A drain reads the oldest FIFO bytes, in order, stops only when the FIFO is
    empty or nothing remains, advances the cursor by exactly what it read,
    clears the FIFOFULL enable when nothing remains, and touches nothing else.
   */
  lemma DrainMovesBytesInOrder(rf: RegFile, t: Transaction)
    requires RegFileValid(rf)
    ensures var d := Drain(rf, t);
      && |d.received| == t.remaining - d.txn.remaining
      && d.txn.cursor == t.cursor + |d.received|
      && d.received + d.regs.fifo == rf.fifo
      && (d.txn.remaining == 0 || d.regs.fifo == [])
      && RegFileValid(d.regs)
      && d.regs == rf.(fifo := d.regs.fifo,
                       intEn := Word(ClearedWhen(rf.intEn.bits, INTEN_FIFOFULL_MASK, d.txn.remaining == 0)))
      && d.txn == t.(cursor := d.txn.cursor, remaining := d.txn.remaining)
  {
    var d := Drain(rf, t);
    assert rf.fifo == rf.fifo[..|d.received|] + rf.fifo[|d.received|..];
  }

  /**
    Conversely, the drain is determined by how many bytes it read: any count
    within the FIFO's contents that stops only because the FIFO is empty or
    nothing remains gives the drain's result.
   */
  lemma DrainDeterminedByOutcome(rf: RegFile, t: Transaction, k: nat)
    requires RegFileValid(rf)
    requires k <= t.remaining && k <= |rf.fifo|
    requires k == t.remaining || k == |rf.fifo|
    ensures Drain(rf, t)
         == DrainStep(rf.(fifo := rf.fifo[k..],
                          intEn := Word(ClearedWhen(rf.intEn.bits, INTEN_FIFOFULL_MASK, k == t.remaining))),
                      t.(cursor := t.cursor + k, remaining := t.remaining - k),
                      rf.fifo[..k])
  {
  }

  /** A drain ends with the FIFOEMPTY status bit set unless it has read every byte asked for. */
  lemma DrainStopsWhenEmpty(rf: RegFile, t: Transaction)
    requires RegFileValid(rf)
    ensures var d := Drain(rf, t);
      d.txn.remaining == 0 || FifoEmpty(d.regs)
  {
    DrainMovesBytesInOrder(rf, t);
    FifoEmptyIffNoBytes(Drain(rf, t).regs);
  }

  /** After a drain the FIFOFULL interrupt is enabled exactly when it was and bytes remain. */
  lemma DrainKeepsCollectInterrupt(rf: RegFile, t: Transaction)
    requires RegFileValid(rf)
    ensures var d := Drain(rf, t);
      AnySet(d.regs.intEn.bits, INTEN_FIFOFULL_MASK) <==> AnySet(rf.intEn.bits, INTEN_FIFOFULL_MASK) && d.txn.remaining > 0
  {
    var d := Drain(rf, t);
    DrainMovesBytesInOrder(rf, t);
    ClearedWhenReads(rf.intEn.bits, INTEN_FIFOFULL_MASK, d.txn.remaining == 0);
  }

  /** Draining after a fill of an empty FIFO returns the filled bytes (the FIFO is first in, first out). */
  lemma FillThenDrainReturnsBytes(rf: RegFile, t: Transaction, bytes: seq<bv8>, rx: Transaction)
    requires RegFileValid(rf) && |bytes| == t.remaining && rf.fifo == []
    requires rx.remaining >= t.remaining
    ensures var s := Fill(rf, t, bytes);
      Drain(s.regs, rx).received == bytes[..t.remaining - s.txn.remaining]
  {
  }

  // ===========================================================================
  // The data path, hal/src/I2C.c:169-245
  // ===========================================================================

  datatype PathStep = PathStep(regs: RegFile, txn: Transaction, events: seq<Event>, result: ReturnCode)

  /** The three DMA controller calls of a DMA transfer, in order. */
  function DmaCalls(t: Transaction): seq<Event> {
    [DmacSetupChannel(ChannelConfigFor(t.dir), false, false, false),
     DmacSetupTransfer(TransferConfigFor(t)),
     DmacEnableChannel(DMAC_CHANNEL_I2C)]
  }

  /** How many of the DMA calls are made: up to and including the first that fails. */
  function DmaCallsMade(dmac: DmacReplies): nat {
    if dmac.setupChannel != DmacOk then 1 else if dmac.setupTransfer != DmacOk then 2 else 3
  }

  predicate AllOk(dmac: DmacReplies) {
    dmac.setupChannel == DmacOk && dmac.setupTransfer == DmacOk && dmac.enableChannel == DmacOk
  }

  /** The register writes of each data path, before any byte moves. */
  function ScanStart(rf: RegFile): RegFile {
    rf.(setup := Word(DmaDisabled(rf.setup.bits)), intEn := Word(FifoIntsDisabled(rf.intEn.bits)))
  }
  function FifoTxStart(rf: RegFile): RegFile {
    rf.(setup := Word(DmaDisabled(rf.setup.bits)), intEn := Word(Raised(rf.intEn.bits, INTEN_FIFOEMPTY_MASK)))
  }
  function FifoRxStart(rf: RegFile): RegFile {
    rf.(setup := Word(DmaDisabled(rf.setup.bits)), intEn := Word(Raised(rf.intEn.bits, INTEN_FIFOFULL_MASK)))
  }
  function DmaStart(rf: RegFile): RegFile {
    rf.(intEn := Word(FifoIntsDisabled(rf.intEn.bits)), setup := Word(DmaEnabled(rf.setup.bits)))
  }

  /** SetupDataPath: the registers, record and calls it leaves behind, and its return code. */
  function DataPathEffect(rf: RegFile, t: Transaction, bytes: seq<bv8>, dmac: DmacReplies): PathStep
    requires RegFileValid(rf) && |bytes| == t.remaining
  {
    if t.remaining == 0 then
      PathStep(ScanStart(rf), t, [], Ok)
    else if t.path == UseFifo then
      if t.dir == Tx then
        var s := Fill(FifoTxStart(rf), t, bytes);
        PathStep(s.regs, s.txn, [], Ok)
      else
        PathStep(FifoRxStart(rf), t, [], Ok)
    else
      var made := DmaCalls(t)[..DmaCallsMade(dmac)];
      if !AllOk(dmac) then PathStep(rf, t, made, DmacError)
      else PathStep(DmaStart(rf), t, made, Ok)
  }

  /**
    What every data path does: it fails only on the DMA path, when some DMA
    controller call fails, and then leaves registers and record untouched; it
    writes only Setup, IntEn and the FIFO, of Setup only DMAEN, and of the
    record only the cursor and the count; it keeps the FIFO within its depth;
    and after success DMAEN is set exactly for a DMA transfer of at least one byte.
   */
  ghost predicate DataPathBounded(rf: RegFile, t: Transaction, dmac: DmacReplies, p: PathStep) {
    && (p.result == Ok || p.result == DmacError)
    && (p.result == DmacError <==> t.remaining > 0 && t.path == UseDma && !AllOk(dmac))
    && (p.result == DmacError ==> p.regs == rf && p.txn == t)
    && p.regs == rf.(setup := p.regs.setup, intEn := p.regs.intEn, fifo := p.regs.fifo)
    && p.txn == t.(cursor := p.txn.cursor, remaining := p.txn.remaining)
    && RegFileValid(p.regs)
    && p.regs.setup.bits & !SETUP_DMAEN_MASK == rf.setup.bits & !SETUP_DMAEN_MASK
    && (p.result == Ok ==> (AnySet(p.regs.setup.bits, SETUP_DMAEN_MASK) <==> t.path == UseDma && t.remaining > 0))
  }

  /** A scan (nothing to move) turns DMA and both FIFO interrupts off and calls nobody. */
  lemma DataPathScan(rf: RegFile, t: Transaction, bytes: seq<bv8>, dmac: DmacReplies)
    requires RegFileValid(rf) && |bytes| == t.remaining && t.remaining == 0
    ensures var p := DataPathEffect(rf, t, bytes, dmac);
      && p.result == Ok && p.events == [] && p.txn == t
      && p.regs == rf.(setup := Word(DmaDisabled(rf.setup.bits)), intEn := Word(FifoIntsDisabled(rf.intEn.bits)))
      && DataPathBounded(rf, t, dmac, p)
  {
    DmaDisabledClearsDmaen(rf.setup.bits);
    DmaDisabledKeepsOthers(rf.setup.bits);
  }

  /**
    A FIFO transmit turns DMA off, enables FIFOEMPTY and primes the FIFO with
    the first pending bytes, calling nobody.
   */
  lemma DataPathFifoTx(rf: RegFile, t: Transaction, bytes: seq<bv8>, dmac: DmacReplies)
    requires RegFileValid(rf) && |bytes| == t.remaining
    requires t.remaining > 0 && t.path == UseFifo && t.dir == Tx
    ensures var p := DataPathEffect(rf, t, bytes, dmac);
      var moved := t.remaining - p.txn.remaining;
      && p.result == Ok && p.events == []
      && Step(p.regs, p.txn) == Fill(FifoTxStart(rf), t, bytes)
      && p.regs.setup.bits == DmaDisabled(rf.setup.bits)
      && moved <= t.remaining && p.txn.cursor == t.cursor + moved
      && p.regs.fifo + bytes[moved..] == rf.fifo + bytes
  {
    FillMovesBytesInOrder(FifoTxStart(rf), t, bytes);
  }

  /** After a FIFO transmit FIFOEMPTY is enabled exactly when bytes are still to be sent. */
  lemma DataPathFifoTxRefill(rf: RegFile, t: Transaction, bytes: seq<bv8>, dmac: DmacReplies)
    requires RegFileValid(rf) && |bytes| == t.remaining
    requires t.remaining > 0 && t.path == UseFifo && t.dir == Tx
    ensures var p := DataPathEffect(rf, t, bytes, dmac);
      AnySet(p.regs.intEn.bits, INTEN_FIFOEMPTY_MASK) <==> p.txn.remaining > 0
  {
    FillKeepsRefillInterrupt(FifoTxStart(rf), t, bytes);
    SetBitsSets(rf.intEn.bits, INTEN_FIFOEMPTY_MASK);
  }

  /** The FIFO transmit path keeps within what every data path does. */
  lemma DataPathFifoTxBounded(rf: RegFile, t: Transaction, bytes: seq<bv8>, dmac: DmacReplies)
    requires RegFileValid(rf) && |bytes| == t.remaining
    requires t.remaining > 0 && t.path == UseFifo && t.dir == Tx
    ensures DataPathBounded(rf, t, dmac, DataPathEffect(rf, t, bytes, dmac))
  {
    FillMovesBytesInOrder(FifoTxStart(rf), t, bytes);
    DmaDisabledClearsDmaen(rf.setup.bits);
    DmaDisabledKeepsOthers(rf.setup.bits);
  }

  /** A FIFO receive turns DMA off and enables FIFOFULL; it reads nothing and moves no cursor. */
  lemma DataPathFifoRx(rf: RegFile, t: Transaction, bytes: seq<bv8>, dmac: DmacReplies)
    requires RegFileValid(rf) && |bytes| == t.remaining
    requires t.remaining > 0 && t.path == UseFifo && t.dir == Rx
    ensures var p := DataPathEffect(rf, t, bytes, dmac);
      && p.result == Ok && p.events == [] && p.txn == t
      && p.regs == FifoRxStart(rf)
  {
  }

  /** The FIFO receive path keeps within what every data path does. */
  lemma DataPathFifoRxBounded(rf: RegFile, t: Transaction, bytes: seq<bv8>, dmac: DmacReplies)
    requires RegFileValid(rf) && |bytes| == t.remaining
    requires t.remaining > 0 && t.path == UseFifo && t.dir == Rx
    ensures DataPathBounded(rf, t, dmac, DataPathEffect(rf, t, bytes, dmac))
  {
    DmaDisabledClearsDmaen(rf.setup.bits);
    DmaDisabledKeepsOthers(rf.setup.bits);
  }

  /**
    A DMA transfer calls SetupChannel, SetupTransfer and EnableChannel in this
    order and stops at the first that fails, returning DMAC_ERROR with the
    registers untouched; when all succeed it turns both FIFO interrupts off and
    DMA on.
   */
  lemma DataPathDma(rf: RegFile, t: Transaction, bytes: seq<bv8>, dmac: DmacReplies)
    requires RegFileValid(rf) && |bytes| == t.remaining
    requires t.remaining > 0 && t.path == UseDma
    ensures var p := DataPathEffect(rf, t, bytes, dmac);
      && p.events == DmaCalls(t)[..DmaCallsMade(dmac)]
      && (p.result == Ok <==> AllOk(dmac)) && p.txn == t
      && (AllOk(dmac) ==> p.events == DmaCalls(t)
                          && p.regs == rf.(intEn := Word(FifoIntsDisabled(rf.intEn.bits)), setup := Word(DmaEnabled(rf.setup.bits))))
      && (!AllOk(dmac) ==> p.regs == rf && p.result == DmacError)
  {
  }

  /** The DMA path keeps within what every data path does. */
  lemma DataPathDmaBounded(rf: RegFile, t: Transaction, bytes: seq<bv8>, dmac: DmacReplies)
    requires RegFileValid(rf) && |bytes| == t.remaining
    requires t.remaining > 0 && t.path == UseDma
    ensures DataPathBounded(rf, t, dmac, DataPathEffect(rf, t, bytes, dmac))
  {
    if AllOk(dmac) {
      DmaEnabledSetsDmaen(rf.setup.bits);
      DmaEnabledKeepsOthers(rf.setup.bits);
    }
  }

  /** Every data path keeps within DataPathBounded. */
  lemma DataPathOutcome(rf: RegFile, t: Transaction, bytes: seq<bv8>, dmac: DmacReplies)
    requires RegFileValid(rf) && |bytes| == t.remaining
    ensures DataPathBounded(rf, t, dmac, DataPathEffect(rf, t, bytes, dmac))
  {
    if t.remaining == 0 {
      DataPathScan(rf, t, bytes, dmac);
    } else if t.path == UseDma {
      DataPathDmaBounded(rf, t, bytes, dmac);
    } else if t.dir == Rx {
      DataPathFifoRxBounded(rf, t, bytes, dmac);
    } else {
      DataPathFifoTxBounded(rf, t, bytes, dmac);
    }
  }

  // ===========================================================================
  // Timing, hal/src/I2C.c:275-315 against the bus limits of the tests
  // ===========================================================================

  /** The controller setup a call of I2C_SetupController asks for. */
  datatype SetupInfo = SetupInfo(role: Role, mode: Byte)

  /** The Setup word I2C_SetupController leaves behind. */
  function ConfiguredSetup(setup: bv32, info: SetupInfo): bv32 {
    var s1 := WriteField(setup, SETUP_MASTER_MASK, SETUP_MASTER_OFFSET, info.role.Value());
    var s2 := WriteField(s1, SETUP_T_SP_MASK, SETUP_T_SP_OFFSET, T_SP);
    var s3 := WriteField(s2, SETUP_T_SUDAT_MASK, SETUP_T_SUDAT_OFFSET, SudatFor(info.mode));
    var s4 := WriteField(s3, SETUP_T_HDDAT_MASK, SETUP_T_HDDAT_OFFSET, HddatFor(info.mode));
    var s5 := WriteField(s4, SETUP_T_SCLHI_MASK, SETUP_T_SCLHI_OFFSET, SclHiFor(info.mode));
    var s6 := WriteField(s5, SETUP_T_SCLRATIO_MASK, SETUP_T_SCLRATIO_OFFSET, SclRatioFor(info.mode));
    WithEnabled(s6)
  }

  /** The TPM write of I2C_SetupController: the multiplier OR-ed into the TPM field. */
  function ConfiguredTpm(tpm: bv32): bv32 {
    Raised(tpm, Placed(I2C_TPM, TPM_TPM_MASK, TPM_TPM_OFFSET))
  }

  /** With a multiplier of 0 the TPM write leaves the register as it was. */
  lemma ConfiguredTpmKeepsRegister(tpm: bv32)
    ensures ConfiguredTpm(tpm) == tpm
  {
  }

  /** The registers I2C_SetupController leaves behind: Setup and TPM written, nothing else. */
  function Configured(rf: RegFile, info: SetupInfo): RegFile {
    rf.(setup := Word(ConfiguredSetup(rf.setup.bits, info)), tpm := Word(ConfiguredTpm(rf.tpm.bits)))
  }

  /** Every Setup bit that I2C_SetupController programs. */
  const CONFIGURED_SETUP_BITS: bv32 :=
    SETUP_MASTER_MASK | SETUP_T_SP_MASK | SETUP_T_SUDAT_MASK | SETUP_T_HDDAT_MASK
    | SETUP_T_SCLHI_MASK | SETUP_T_SCLRATIO_MASK | SETUP_IICEN_MASK

  lemma ConfiguredSetupRole(setup: bv32, info: SetupInfo)
    ensures var s := ConfiguredSetup(setup, info);
      GetField(s, SETUP_MASTER_MASK, SETUP_MASTER_OFFSET) == info.role.Value() && Enabled(s)
  {
  }

  lemma ConfiguredSetupPhases(setup: bv32, info: SetupInfo)
    requires info.mode < UNSUPPORTED_MODE
    ensures var s := ConfiguredSetup(setup, info);
      && GetField(s, SETUP_T_SP_MASK, SETUP_T_SP_OFFSET) == 2
      && GetField(s, SETUP_T_SUDAT_MASK, SETUP_T_SUDAT_OFFSET) == [7, 0, 0][info.mode]
      && GetField(s, SETUP_T_HDDAT_MASK, SETUP_T_HDDAT_OFFSET) == [9, 9, 0][info.mode]
  {
  }

  lemma ConfiguredSetupClock(setup: bv32, info: SetupInfo)
    requires info.mode < UNSUPPORTED_MODE
    ensures var s := ConfiguredSetup(setup, info);
      && GetField(s, SETUP_T_SCLHI_MASK, SETUP_T_SCLHI_OFFSET) == [229, 30, 10][info.mode]
      && GetField(s, SETUP_T_SCLRATIO_MASK, SETUP_T_SCLRATIO_OFFSET) == [0, 1, 1][info.mode]
  {
  }

  lemma ConfiguredSetupKeepsOthers(setup: bv32, info: SetupInfo)
    ensures var s := ConfiguredSetup(setup, info);
      && s & !CONFIGURED_SETUP_BITS == setup & !CONFIGURED_SETUP_BITS
      && GetField(s, SETUP_DMAEN_MASK, SETUP_DMAEN_OFFSET) == GetField(setup, SETUP_DMAEN_MASK, SETUP_DMAEN_OFFSET)
      && GetField(s, SETUP_ADDRESSING_MASK, SETUP_ADDRESSING_OFFSET) == GetField(setup, SETUP_ADDRESSING_MASK, SETUP_ADDRESSING_OFFSET)
  {
  }

  /**
    After I2C_SetupController each programmed field reads back its table value,
    MASTER holds the role, the controller is enabled, and every other Setup bit
    (DMAEN, ADDRESSING and the unused bits) keeps its old value.
   */
  lemma ConfiguredSetupReadsBack(setup: bv32, info: SetupInfo)
    requires info.mode < UNSUPPORTED_MODE
    ensures var s := ConfiguredSetup(setup, info);
      && GetField(s, SETUP_MASTER_MASK, SETUP_MASTER_OFFSET) == info.role.Value()
      && GetField(s, SETUP_T_SP_MASK, SETUP_T_SP_OFFSET) == 2
      && GetField(s, SETUP_T_SUDAT_MASK, SETUP_T_SUDAT_OFFSET) == [7, 0, 0][info.mode]
      && GetField(s, SETUP_T_HDDAT_MASK, SETUP_T_HDDAT_OFFSET) == [9, 9, 0][info.mode]
      && GetField(s, SETUP_T_SCLHI_MASK, SETUP_T_SCLHI_OFFSET) == [229, 30, 10][info.mode]
      && GetField(s, SETUP_T_SCLRATIO_MASK, SETUP_T_SCLRATIO_OFFSET) == [0, 1, 1][info.mode]
      && Enabled(s)
      && s & !CONFIGURED_SETUP_BITS == setup & !CONFIGURED_SETUP_BITS
      && GetField(s, SETUP_DMAEN_MASK, SETUP_DMAEN_OFFSET) == GetField(setup, SETUP_DMAEN_MASK, SETUP_DMAEN_OFFSET)
      && GetField(s, SETUP_ADDRESSING_MASK, SETUP_ADDRESSING_OFFSET) == GetField(setup, SETUP_ADDRESSING_MASK, SETUP_ADDRESSING_OFFSET)
  {
    ConfiguredSetupRole(setup, info);
    ConfiguredSetupPhases(setup, info);
    ConfiguredSetupClock(setup, info);
    ConfiguredSetupKeepsOthers(setup, info);
  }

  /** The peripheral clock period of the tests, in nanoseconds. */
  const T_PCLK_NS: nat := 20

  /** The timing the tests derive from the programmed fields, in nanoseconds. */
  function SpikeWidthNs(tpm: nat, sp: nat): nat { sp * T_PCLK_NS * (tpm + 1) }
  function PhaseNs(tpm: nat, sp: nat, field: nat): nat { 2 * T_PCLK_NS + (2 + sp + field) * T_PCLK_NS * (tpm + 1) }
  function SclLowNs(tpm: nat, sp: nat, sclHi: nat, ratio: nat): nat {
    2 * T_PCLK_NS + (2 + sp + sclHi * (1 + ratio)) * T_PCLK_NS * (tpm + 1)
  }

  /** Minimum setup, hold, SCL high and SCL low times, and maximum spike width, per mode (-1: none). */
  const MIN_SUDAT_NS: seq<nat> := [250, 100, 50]
  const MIN_HDDAT_NS: seq<nat> := [300, 300, 0]
  const MIN_SCLHI_NS: seq<nat> := [4000, 600, 260]
  const MIN_SCLLO_NS: seq<nat> := [4700, 1300, 500]
  const MAX_SP_NS: seq<int> := [-1, 50, 50]

  /**
    With the multiplier at 0, the fields I2C_SetupController programs give,
    for each supported mode, a spike width, data setup and hold times and SCL
    high and low periods within the limits the tests check (which include the
    Standard, Fast and Fast-mode Plus minima of the I2C-bus specification).
   */
  lemma ProgrammedTimingMeetsBusLimits(tpmReg: bv32, setup: bv32, info: SetupInfo)
    requires info.mode < UNSUPPORTED_MODE
    requires GetField(tpmReg, TPM_TPM_MASK, TPM_TPM_OFFSET) == 0
    ensures var s := ConfiguredSetup(setup, info);
      var tpm := GetField(tpmReg, TPM_TPM_MASK, TPM_TPM_OFFSET) as nat;
      var sp := GetField(s, SETUP_T_SP_MASK, SETUP_T_SP_OFFSET) as nat;
      var sclHi := GetField(s, SETUP_T_SCLHI_MASK, SETUP_T_SCLHI_OFFSET) as nat;
      && (MAX_SP_NS[info.mode] == -1 || SpikeWidthNs(tpm, sp) <= MAX_SP_NS[info.mode])
      && PhaseNs(tpm, sp, GetField(s, SETUP_T_SUDAT_MASK, SETUP_T_SUDAT_OFFSET) as nat) >= MIN_SUDAT_NS[info.mode]
      && PhaseNs(tpm, sp, GetField(s, SETUP_T_HDDAT_MASK, SETUP_T_HDDAT_OFFSET) as nat) >= MIN_HDDAT_NS[info.mode]
      && PhaseNs(tpm, sp, sclHi) >= MIN_SCLHI_NS[info.mode]
      && SclLowNs(tpm, sp, sclHi, GetField(s, SETUP_T_SCLRATIO_MASK, SETUP_T_SCLRATIO_OFFSET) as nat) >= MIN_SCLLO_NS[info.mode]
  {
    ConfiguredSetupReadsBack(setup, info);
  }

  // ===========================================================================
  // Transaction launch, hal/src/I2C.c:327-402
  // ===========================================================================

  /** I2CTransactionDescriptor. */
  datatype Descriptor = Descriptor(direction: Direction, addressingMode: AddressingMode, address: bv16,
                                   path: DataPath, data: array?<bv8>, count: U16,
                                   callback: Option<CallbackId>)

  /** The condition of hal/src/I2C.c:332-342 that rejects a descriptor, clause by clause. */
  predicate Rejected(d: Descriptor) {
    || (d.data == null && d.count != 0)
    || (d.data == null && d.count == 0 && d.direction != Tx)
    || (d.data != null && d.count == 0)
    || d.count > CTRL_DATACNT_MASK as int + 1
    || (d.addressingMode == TenBit && d.address > ADDR_MAX_10BIT)
    || (d.addressingMode == SevenBit && d.address > ADDR_MAX_7BIT)
  }

  function AddressLimit(mode: AddressingMode): bv16 {
    if mode == SevenBit then ADDR_MAX_7BIT else ADDR_MAX_10BIT
  }

  /**
    A descriptor the HAL accepts: at most 256 bytes, an address within its
    mode's limit, and either a buffer with at least one byte or, for a scan, no
    buffer, no bytes and the transmit direction.
   */
  predicate Acceptable(d: Descriptor) {
    && d.count <= MAX_DATA_COUNT
    && d.address <= AddressLimit(d.addressingMode)
    && (if d.data == null then d.count == 0 && d.direction == Tx else d.count > 0)
  }

  /** The six rejection clauses are exactly the descriptors that are not acceptable. */
  lemma RejectedIffNotAcceptable(d: Descriptor)
    ensures Rejected(d) <==> !Acceptable(d)
  {
  }

  /** The record LaunchTransaction fills in (role from the Setup MASTER bit). */
  function Recorded(d: Descriptor, setup: bv32): Transaction {
    Transaction(if GetField(setup, SETUP_MASTER_MASK, SETUP_MASTER_OFFSET) != 0 then Master else Slave,
                d.direction, d.addressingMode, d.address, d.path, d.data, 0, d.count, d.callback)
  }

  /** The role recorded is the one I2C_SetupController programmed. */
  lemma RecordedRoleIsConfigured(d: Descriptor, setup: bv32, info: SetupInfo)
    requires info.mode < UNSUPPORTED_MODE
    ensures Recorded(d, ConfiguredSetup(setup, info)).role == info.role
  {
    ConfiguredSetupReadsBack(setup, info);
  }

  /** The Addr write: the address into the ADDR field. */
  function AddressWritten(addr: bv32, a: bv16): bv32 {
    WriteField(addr, ADDR_ADDR_MASK, ADDR_ADDR_OFFSET, a as bv32)
  }

  /** The Setup write: the addressing mode into the ADDRESSING bit. */
  function AddressingWritten(setup: bv32, mode: AddressingMode): bv32 {
    WriteField(setup, SETUP_ADDRESSING_MASK, SETUP_ADDRESSING_OFFSET, mode.Value())
  }

  /** The Ctrl word after the phase writes: START, ADDR, DATA exactly when there is a buffer, STOP. */
  function PhasesRequested(ctrl: bv32, hasData: bool): bv32 {
    var c1 := Raised(Raised(ctrl, CTRL_PHASE_START_MASK), CTRL_PHASE_ADDR_MASK);
    var c2 := if hasData then Raised(c1, CTRL_PHASE_DATA_MASK) else Cleared(c1, CTRL_PHASE_DATA_MASK);
    Raised(c2, CTRL_PHASE_STOP_MASK)
  }

  /** The Ctrl word after the direction and count writes. */
  function DirectionAndCount(ctrl: bv32, dir: Direction, count: U16): bv32 {
    WriteField(WriteField(ctrl, CTRL_DIR_MASK, CTRL_DIR_OFFSET, dir.Value()), CTRL_DATACNT_MASK, CTRL_DATACNT_OFFSET, count as bv32)
  }

  /** The Ctrl word after the phase, direction and count writes. */
  function ProgrammedCtrl(ctrl: bv32, hasData: bool, dir: Direction, count: U16): bv32 {
    DirectionAndCount(PhasesRequested(ctrl, hasData), dir, count)
  }

  /** The registers after the Addr, Setup and Ctrl writes, before the data path. */
  function Programmed(rf: RegFile, d: Descriptor): RegFile {
    rf.(addr := Word(AddressWritten(rf.addr.bits, d.address)),
        setup := Word(AddressingWritten(rf.setup.bits, d.addressingMode)),
        ctrl := Word(ProgrammedCtrl(rf.ctrl.bits, d.data != null, d.direction, d.count)))
  }

  /** An address within the 10-bit limit reads back from ADDR untruncated. */
  lemma AddressReadsBack(addr: bv32, a: bv16)
    requires a <= ADDR_MAX_10BIT
    ensures GetField(AddressWritten(addr, a), ADDR_ADDR_MASK, ADDR_ADDR_OFFSET) == a as bv32
  {
    AddressWrittenUntruncated(a);
  }

  lemma AddressKeepsOthers(addr: bv32, a: bv16)
    ensures AddressWritten(addr, a) & !ADDR_ADDR_MASK == addr & !ADDR_ADDR_MASK
  {
  }

  lemma AddressingReadsBack(setup: bv32, mode: AddressingMode)
    ensures GetField(AddressingWritten(setup, mode), SETUP_ADDRESSING_MASK, SETUP_ADDRESSING_OFFSET) == mode.Value()
  {
  }

  lemma AddressingKeepsOthers(setup: bv32, mode: AddressingMode)
    ensures AddressingWritten(setup, mode) & !SETUP_ADDRESSING_MASK == setup & !SETUP_ADDRESSING_MASK
  {
  }

  /** START, ADDR and STOP are always requested; the DATA phase exactly when there is a buffer. */
  lemma CtrlPhases(ctrl: bv32, hasData: bool, dir: Direction, count: U16)
    ensures var c := ProgrammedCtrl(ctrl, hasData, dir, count);
      && AnySet(c, CTRL_PHASE_START_MASK) && AnySet(c, CTRL_PHASE_ADDR_MASK) && AnySet(c, CTRL_PHASE_STOP_MASK)
  {
  }

  lemma CtrlDataPhase(ctrl: bv32, hasData: bool, dir: Direction, count: U16)
    ensures AnySet(ProgrammedCtrl(ctrl, hasData, dir, count), CTRL_PHASE_DATA_MASK) == hasData
  {
  }

  lemma CtrlDirReadsBack(ctrl: bv32, hasData: bool, dir: Direction, count: U16)
    ensures GetField(ProgrammedCtrl(ctrl, hasData, dir, count), CTRL_DIR_MASK, CTRL_DIR_OFFSET) == dir.Value()
  {
  }

  /** DATACNT holds the count below 256; the maximum, 256, reads back as 0. */
  lemma CtrlCountReadsBack(ctrl: bv32, hasData: bool, dir: Direction, count: U16)
    requires count <= MAX_DATA_COUNT
    ensures GetField(ProgrammedCtrl(ctrl, hasData, dir, count), CTRL_DATACNT_MASK, CTRL_DATACNT_OFFSET)
         == (if count == MAX_DATA_COUNT then 0 else count as bv32)
  {
    DataCountEncoding(count);
  }

  const CTRL_PROGRAMMED_BITS: bv32 :=
    CTRL_PHASE_START_MASK | CTRL_PHASE_ADDR_MASK | CTRL_PHASE_DATA_MASK | CTRL_PHASE_STOP_MASK
    | CTRL_DIR_MASK | CTRL_DATACNT_MASK

  lemma CtrlKeepsOthers(ctrl: bv32, hasData: bool, dir: Direction, count: U16)
    ensures ProgrammedCtrl(ctrl, hasData, dir, count) & !CTRL_PROGRAMMED_BITS == ctrl & !CTRL_PROGRAMMED_BITS
  {
  }

  /**
    The Ctrl word of a launch requests START, ADDR and STOP, the DATA phase
    exactly when there is a buffer, holds the direction in DIR and the count in
    DATACNT (256 as 0), and keeps every other Ctrl bit.
   */
  lemma ProgrammedCtrlReadsBack(ctrl: bv32, hasData: bool, dir: Direction, count: U16)
    requires count <= MAX_DATA_COUNT
    ensures var c := ProgrammedCtrl(ctrl, hasData, dir, count);
      && AnySet(c, CTRL_PHASE_START_MASK) && AnySet(c, CTRL_PHASE_ADDR_MASK) && AnySet(c, CTRL_PHASE_STOP_MASK)
      && (AnySet(c, CTRL_PHASE_DATA_MASK) <==> hasData)
      && GetField(c, CTRL_DIR_MASK, CTRL_DIR_OFFSET) == dir.Value()
      && GetField(c, CTRL_DATACNT_MASK, CTRL_DATACNT_OFFSET) == (if count == MAX_DATA_COUNT then 0 else count as bv32)
      && c & !CTRL_PROGRAMMED_BITS == ctrl & !CTRL_PROGRAMMED_BITS
  {
    CtrlPhases(ctrl, hasData, dir, count);
    CtrlDataPhase(ctrl, hasData, dir, count);
    CtrlDirReadsBack(ctrl, hasData, dir, count);
    CtrlCountReadsBack(ctrl, hasData, dir, count);
    CtrlKeepsOthers(ctrl, hasData, dir, count);
  }

  /**
    For an accepted descriptor the Addr field reads back the address
    untruncated and ADDRESSING the addressing mode; no other bit of Addr or
    Setup changes, Ctrl is the launch's Ctrl word, and no other register changes.
   */
  lemma ProgrammedFieldsReadBack(rf: RegFile, d: Descriptor)
    requires Acceptable(d)
    ensures var p := Programmed(rf, d);
      && GetField(p.addr.bits, ADDR_ADDR_MASK, ADDR_ADDR_OFFSET) == d.address as bv32
      && p.addr.bits & !ADDR_ADDR_MASK == rf.addr.bits & !ADDR_ADDR_MASK
      && GetField(p.setup.bits, SETUP_ADDRESSING_MASK, SETUP_ADDRESSING_OFFSET) == d.addressingMode.Value()
      && p.setup.bits & !SETUP_ADDRESSING_MASK == rf.setup.bits & !SETUP_ADDRESSING_MASK
      && p == rf.(addr := p.addr, setup := p.setup, ctrl := Word(ProgrammedCtrl(rf.ctrl.bits, d.data != null, d.direction, d.count)))
  {
    AddressReadsBack(rf.addr.bits, d.address);
    AddressKeepsOthers(rf.addr.bits, d.address);
    AddressingReadsBack(rf.setup.bits, d.addressingMode);
    AddressingKeepsOthers(rf.setup.bits, d.addressingMode);
  }

  /** "Issue Transaction": the ISSUE_TRANSACTION command into the CMD field. */
  function Issued(cmd: bv32): bv32 {
    Raised(cmd, Placed(CMD_ISSUE_TRANSACTION, CMD_CMD_MASK, CMD_CMD_OFFSET))
  }

  /** An issued command reads as pending. */
  lemma IssuedIsPending(cmd: bv32)
    ensures CommandPending(Issued(cmd))
  {
  }

  /** The buffer's first `count` bytes, the ones an accepted descriptor hands over. */
  function DescriptorBytes(d: Descriptor): (bytes: seq<bv8>)
    reads d.data
    requires Acceptable(d) && (d.data != null ==> d.count <= d.data.Length)
    ensures |bytes| == d.count
  {
    Window(d.data, 0, d.count)
  }

  /**
    An accepted launch: the record and the programmed registers go through
    the data path; only when that succeeds are CMPL enabled, the command
    issued and the interrupt enabled.  The return code is the C expression of
    hal/src/I2C.c:391, `ret = (SetupDataPath(i2c_dev) != I2C_OK)`, whose value
    0 or 1 is I2C_OK or I2C_INVALID_INPUT_DATA.
   */
  function Launched(rf: RegFile, d: Descriptor, bytes: seq<bv8>, dmac: DmacReplies): PathStep
    requires RegFileValid(rf) && |bytes| == d.count
  {
    var p := DataPathEffect(Programmed(rf, d), Recorded(d, rf.setup.bits), bytes, dmac);
    var ret := FromCode(if p.result != Ok then 1 else 0);
    if ret != Ok then PathStep(p.regs, p.txn, p.events, ret)
    else PathStep(p.regs.(intEn := Word(Raised(p.regs.intEn.bits, INTEN_CMPL_MASK)), cmd := Word(Issued(p.regs.cmd.bits))),
                  p.txn, p.events + [IrqEnabled(I2C_INTERRUPT_PRIORITY)], ret)
  }

  /**
    A launch returns I2C_OK exactly when its data path does; a DMA failure is
    reported as I2C_INVALID_INPUT_DATA, not as I2C_DMAC_ERROR; the interrupt is
    enabled only on success; and the registers differ from the data path's
    result only by CMPL enabled and the command issued.
   */
  lemma LaunchReportsDataPath(rf: RegFile, d: Descriptor, bytes: seq<bv8>, dmac: DmacReplies)
    requires RegFileValid(rf) && |bytes| == d.count
    ensures var p := DataPathEffect(Programmed(rf, d), Recorded(d, rf.setup.bits), bytes, dmac);
      var l := Launched(rf, d, bytes, dmac);
      && (l.result == Ok <==> p.result == Ok)
      && (l.result != Ok ==> l.result == InvalidInputData && l == p.(result := InvalidInputData))
      && (l.result == InvalidInputData <==> d.count > 0 && d.path == UseDma && !AllOk(dmac))
      && (l.result == Ok ==> l.events == p.events + [IrqEnabled(I2C_INTERRUPT_PRIORITY)]
                             && l.regs == p.regs.(intEn := l.regs.intEn, cmd := l.regs.cmd))
      && l.txn == p.txn
  {
    DataPathOutcome(Programmed(rf, d), Recorded(d, rf.setup.bits), bytes, dmac);
  }

  /** A successful launch leaves a pending command and the CMPL interrupt enabled. */
  lemma LaunchIssuesCommand(rf: RegFile, d: Descriptor, bytes: seq<bv8>, dmac: DmacReplies)
    requires RegFileValid(rf) && |bytes| == d.count
    ensures var l := Launched(rf, d, bytes, dmac);
      l.result == Ok ==> CommandPending(l.regs.cmd.bits) && AnySet(l.regs.intEn.bits, INTEN_CMPL_MASK)
  {
    var p := DataPathEffect(Programmed(rf, d), Recorded(d, rf.setup.bits), bytes, dmac);
    IssuedIsPending(p.regs.cmd.bits);
    SetBitsSets(p.regs.intEn.bits, INTEN_CMPL_MASK);
  }

  // ===========================================================================
  // Interrupt dispatch, hal/src/I2C.c:409-442
  // ===========================================================================

  /** What the interrupt handler does for one Status reading. */
  datatype IrqAction =
    | Complete(outcome: ReturnCode, drainFirst: bool)
    | Refill
    | Collect
    | Ignore

  function Dispatch(status: bv32, dir: Direction, path: DataPath): IrqAction {
    if AnySet(status, STATUS_CMPL_MASK) then
      var outcome := if AnySet(status, STATUS_ADDRHIT_MASK) then Ok else AddrHitError;
      Complete(outcome, outcome == Ok && dir == Rx && path != UseDma)
    else if AnySet(status, STATUS_FIFOEMPTY_MASK) && dir == Tx then Refill
    else if AnySet(status, STATUS_FIFOFULL_MASK) && dir == Rx then Collect
    else Ignore
  }

  /**
    CMPL takes priority over the FIFO bits and then nothing but ADDRHIT is
    looked at; the outcome is Ok exactly when ADDRHIT is set; a drain precedes
    completion only for a successful FIFO receive; a transmit is never drained
    and a receive never refilled.
   */
  lemma DispatchPriority(status: bv32, dir: Direction, path: DataPath)
    ensures var a := Dispatch(status, dir, path);
      && (a.Complete? <==> AnySet(status, STATUS_CMPL_MASK))
      && (a.Complete? ==> a == Dispatch(status & (STATUS_CMPL_MASK | STATUS_ADDRHIT_MASK), dir, path))
      && (a.Complete? ==> (a.outcome == Ok <==> AnySet(status, STATUS_ADDRHIT_MASK)))
      && (a.Complete? ==> (a.outcome == Ok || a.outcome == AddrHitError))
      && (a.Complete? ==> (a.drainFirst <==> a.outcome == Ok && dir == Rx && path == UseFifo))
      && (a.Refill? ==> dir == Tx && AnySet(status, STATUS_FIFOEMPTY_MASK))
      && (a.Collect? ==> dir == Rx && AnySet(status, STATUS_FIFOFULL_MASK))
      && (!a.Complete? ==> a == Dispatch(status & (STATUS_FIFOEMPTY_MASK | STATUS_FIFOFULL_MASK), dir, path))
  {
  }

  // ===========================================================================
  // The data-moving loops of hal/src/I2C.c:141-167
  // ===========================================================================

  /**
    The loop of WriteAvailableData: the `count` bytes of `data` from `cursor`
    on are written to Data, in order, until the FIFOFULL status bit is set or
    all are sent; `moved` is how many were.
   */
  method PushBytes(dev: Registers, data: array?<bv8>, cursor: nat, count: nat) returns (moved: nat)
    requires dev.Valid()
    requires data == null ==> count == 0
    requires data != null ==> cursor + count <= data.Length
    modifies dev
    ensures dev.Valid() && moved <= count
    ensures moved == count || |dev.regs.fifo| >= Capacity(dev.regs.cfg.bits)
    ensures dev.regs == old(dev.regs).(fifo := old(dev.regs.fifo) + Window(data, cursor, count)[..moved])
  {
    ghost var rf0, bytes := dev.regs, Window(data, cursor, count);
    moved := 0;
    while !FifoFull(dev.regs) && moved < count
      invariant dev.Valid() && moved <= count
      invariant dev.regs == rf0.(fifo := rf0.fifo + bytes[..moved])
      decreases count - moved
    {
      FifoFullIffAtCapacity(dev.regs);
      TakeOneMore(rf0.fifo, bytes, moved);
      assert bytes[moved] == data[cursor + moved];
      dev.WriteData(data[cursor + moved]);
      moved := moved + 1;
    }
    FifoFullIffAtCapacity(dev.regs);
  }

  /**
    The loop of ReadAvailableData: bytes are read from Data, oldest first,
    into `data` from `cursor` on, until the FIFOEMPTY status bit is set or
    `count` are read; `moved` is how many were.
   */
  method PopBytes(dev: Registers, data: array?<bv8>, cursor: nat, count: nat) returns (moved: nat)
    requires dev.Valid()
    requires data == null ==> count == 0
    requires data != null ==> cursor + count <= data.Length
    modifies dev, data
    ensures dev.Valid() && moved <= count && moved <= |old(dev.regs.fifo)|
    ensures moved == count || moved == |old(dev.regs.fifo)|
    ensures dev.regs == old(dev.regs).(fifo := old(dev.regs.fifo)[moved..])
    ensures data != null ==> data[..] == Store(old(data[..]), cursor, old(dev.regs.fifo)[..moved])
  {
    ghost var rf0 := dev.regs;
    ghost var buf0 := if data == null then [] else data[..];
    moved := 0;
    while !FifoEmpty(dev.regs) && moved < count
      invariant dev.Valid() && moved <= count && moved <= |rf0.fifo|
      invariant dev.regs == rf0.(fifo := rf0.fifo[moved..])
      invariant data != null ==> data[..] == Store(buf0, cursor, rf0.fifo[..moved])
      decreases count - moved
    {
      FifoEmptyIffNoBytes(dev.regs);
      StoreOneMore(buf0, cursor, rf0.fifo, moved);
      var b := dev.ReadData();
      data[cursor + moved] := b;
      moved := moved + 1;
    }
    FifoEmptyIffNoBytes(dev.regs);
  }

  /** "Set address and addressing mode", hal/src/I2C.c:364-370. */
  method SetAddress(dev: Registers, a: bv16, mode: AddressingMode)
    requires dev.Valid()
    modifies dev
    ensures dev.regs == old(dev.regs).(addr := Word(AddressWritten(old(dev.regs).addr.bits, a)),
                                       setup := Word(AddressingWritten(old(dev.regs).setup.bits, mode)))
  {
    dev.regs := dev.regs.(addr := Word(Cleared(dev.regs.addr.bits, ADDR_ADDR_MASK)));
    dev.regs := dev.regs.(addr := Word(Raised(dev.regs.addr.bits, Placed(a as bv32, ADDR_ADDR_MASK, ADDR_ADDR_OFFSET))));
    dev.regs := dev.regs.(setup := Word(Cleared(dev.regs.setup.bits, SETUP_ADDRESSING_MASK)));
    dev.regs := dev.regs.(setup := Word(Raised(dev.regs.setup.bits, Placed(mode.Value(), SETUP_ADDRESSING_MASK, SETUP_ADDRESSING_OFFSET))));
  }

  /** "Set transaction Phases", hal/src/I2C.c:372-380. */
  method RequestPhases(dev: Registers, hasData: bool)
    requires dev.Valid()
    modifies dev
    ensures dev.Valid()
    ensures dev.regs == old(dev.regs).(ctrl := Word(PhasesRequested(old(dev.regs.ctrl.bits), hasData)))
  {
    dev.regs := dev.regs.(ctrl := Word(Raised(dev.regs.ctrl.bits, CTRL_PHASE_START_MASK)));
    dev.regs := dev.regs.(ctrl := Word(Raised(dev.regs.ctrl.bits, CTRL_PHASE_ADDR_MASK)));
    var withData := if hasData then Raised(dev.regs.ctrl.bits, CTRL_PHASE_DATA_MASK)
                    else Cleared(dev.regs.ctrl.bits, CTRL_PHASE_DATA_MASK);
    dev.regs := dev.regs.(ctrl := Word(withData));
    dev.regs := dev.regs.(ctrl := Word(Raised(dev.regs.ctrl.bits, CTRL_PHASE_STOP_MASK)));
  }

  /** "Set Direction" and "Set Data Count", hal/src/I2C.c:382-388. */
  method SetDirectionAndCount(dev: Registers, dir: Direction, count: U16)
    requires dev.Valid()
    modifies dev
    ensures dev.Valid()
    ensures dev.regs == old(dev.regs).(ctrl := Word(DirectionAndCount(old(dev.regs.ctrl.bits), dir, count)))
  {
    dev.regs := dev.regs.(ctrl := Word(Cleared(dev.regs.ctrl.bits, CTRL_DIR_MASK)));
    dev.regs := dev.regs.(ctrl := Word(Raised(dev.regs.ctrl.bits, Placed(dir.Value(), CTRL_DIR_MASK, CTRL_DIR_OFFSET))));
    dev.regs := dev.regs.(ctrl := Word(Cleared(dev.regs.ctrl.bits, CTRL_DATACNT_MASK)));
    dev.regs := dev.regs.(ctrl := Word(Raised(dev.regs.ctrl.bits, Placed(count as bv32, CTRL_DATACNT_MASK, CTRL_DATACNT_OFFSET))));
  }

  /**
    The register writes of I2C_LaunchTransaction (hal/src/I2C.c:364-388):
    address and addressing mode, the phases, the direction and the count.
   */
  method ProgramTransfer(dev: Registers, d: Descriptor)
    requires dev.Valid()
    modifies dev
    ensures dev.Valid() && dev.regs == Programmed(old(dev.regs), d)
  {
    SetAddress(dev, d.address, d.addressingMode);
    RequestPhases(dev, d.data != null);
    SetDirectionAndCount(dev, d.direction, d.count);
  }

  /** "Issue Transaction", hal/src/I2C.c:394-397: CMPL enabled, then the command written. */
  method IssueTransaction(dev: Registers)
    requires dev.Valid()
    modifies dev
    ensures dev.Valid()
    ensures dev.regs == old(dev.regs).(intEn := Word(Raised(old(dev.regs.intEn.bits), INTEN_CMPL_MASK)),
                                       cmd := Word(Issued(old(dev.regs.cmd.bits))))
  {
    dev.regs := dev.regs.(intEn := Word(Raised(dev.regs.intEn.bits, INTEN_CMPL_MASK)));
    dev.regs := dev.regs.(cmd := Word(Raised(dev.regs.cmd.bits, Placed(CMD_ISSUE_TRANSACTION, CMD_CMD_MASK, CMD_CMD_OFFSET))));
  }

  // ===========================================================================
  // The HAL's static state and its operations
  // ===========================================================================

  class Hal {
    /** `i2c_config`. */
    const config: ConfigStore
    /** `current_transaction`. */
    var current: Transaction
    /** Calls made so far into the DMA controller, the interrupt controller and callbacks. */
    var trace: seq<Event>

    ghost predicate Valid()
      reads this
    {
      TxnValid(current)
    }

    constructor ()
      ensures Valid() && fresh(config) && config.value == Config(0, 0, 0, 0)
      ensures current == IdleTransaction && trace == []
    {
      config := new ConfigStore();
      current := IdleTransaction;
      trace := [];
    }

    /** The state after a fill, as `Fill` describes it. */
    twostate predicate Filled(dev: Registers)
      reads this, dev
      requires old(Valid() && dev.Valid())
    {
      var s := Fill(old(dev.regs), old(current), old(Pending(current)));
      dev.regs == s.regs && current == s.txn
    }

    /** The state after a drain, as `Drain` describes it, the bytes read stored at the old cursor. */
    twostate predicate Drained(dev: Registers)
      reads this, dev, current.data
      requires old(Valid() && dev.Valid())
    {
      var d := Drain(old(dev.regs), old(current));
      && dev.regs == d.regs && current == d.txn
      && (current.data != null ==>
            current.data[..] == Store(old(current.data[..]), old(current.cursor), d.received))
    }

    /** ReadHWConfig. */
    method ReadHWConfig(dev: Registers)
      modifies config
      ensures config.value == HwConfig(dev.regs.idRev.bits, dev.regs.cfg.bits)
    {
      var id := (dev.regs.idRev.bits & IDREV_ID_MASK) >> IDREV_ID_OFFSET;
      var major := ((dev.regs.idRev.bits & IDREV_MAJOR_MASK) >> IDREV_MAJOR_OFFSET) as bv8;
      var minor := ((dev.regs.idRev.bits & IDREV_MINOR_MASK) >> IDREV_MINOR_OFFSET) as bv8;
      var code := (dev.regs.cfg.bits & CFG_FIFOSIZE_MASK) >> CFG_FIFOSIZE_OFFSET;
      var fifoSize := ((2 as bv32) << code) as bv8;
      config.value := Config(id, major, minor, fifoSize);
    }

    /** I2C_Create. */
    method Create(dev: Registers?) returns (r: ReturnCode)
      modifies config
      ensures dev == null ==> r == InvalidInputData && unchanged(config)
      ensures dev != null ==> r == Ok && config.value == HwConfig(dev.regs.idRev.bits, dev.regs.cfg.bits)
    {
      if dev == null {
        return InvalidInputData;
      }
      ReadHWConfig(dev);
      return Ok;
    }

    /**
      I2C_GetConfig: `destinationPresent` is false for a null `return_value`;
      `value` is what is stored through it, the address of `i2c_config`.
     */
    method GetConfig(dev: Registers?, destinationPresent: bool) returns (r: ReturnCode, value: ConfigStore?)
      ensures r == Ok <==> dev != null && destinationPresent
      ensures r != Ok ==> r == InvalidInputData && value == null
      ensures r == Ok ==> value == config
    {
      if dev == null || !destinationPresent {
        return InvalidInputData, null;
      }
      return Ok, config;
    }

    /**
      The pointer I2C_GetConfig hands out sees a later I2C_Create: both name
      the one `i2c_config`.
     */
    method GetConfigThenCreate(dev: Registers) returns (value: ConfigStore?)
      modifies config
      ensures value == config && value.value == HwConfig(dev.regs.idRev.bits, dev.regs.cfg.bits)
    {
      var r;
      r, value := GetConfig(dev, true);
      r := Create(dev);
    }

    /** I2C_SetupController: `setup` is None for a null `setup_info`. */
    method SetupController(dev: Registers?, setup: Option<SetupInfo>) returns (r: ReturnCode)
      modifies dev
      ensures r == Ok <==> dev != null && setup.Some? && setup.value.mode < UNSUPPORTED_MODE
      ensures r != Ok ==> r == InvalidInputData && (dev != null ==> unchanged(dev))
      ensures r == Ok ==> dev.regs == Configured(old(dev.regs), setup.value)
    {
      if dev == null || setup.None? || setup.value.mode >= UNSUPPORTED_MODE {
        return InvalidInputData;
      }
      var info := setup.value;
      dev.regs := dev.regs.(setup := Word(Cleared(dev.regs.setup.bits, SETUP_MASTER_MASK)));
      dev.regs := dev.regs.(setup := Word(Raised(dev.regs.setup.bits, Placed(info.role.Value(), SETUP_MASTER_MASK, SETUP_MASTER_OFFSET))));

      dev.regs := dev.regs.(tpm := Word(Raised(dev.regs.tpm.bits, Placed(I2C_TPM, TPM_TPM_MASK, TPM_TPM_OFFSET))));

      dev.regs := dev.regs.(setup := Word(Cleared(dev.regs.setup.bits, SETUP_T_SP_MASK)));
      dev.regs := dev.regs.(setup := Word(Raised(dev.regs.setup.bits, Placed(T_SP, SETUP_T_SP_MASK, SETUP_T_SP_OFFSET))));

      var mode := info.mode;

      dev.regs := dev.regs.(setup := Word(Cleared(dev.regs.setup.bits, SETUP_T_SUDAT_MASK)));
      dev.regs := dev.regs.(setup := Word(Raised(dev.regs.setup.bits, Placed(SudatFor(mode), SETUP_T_SUDAT_MASK, SETUP_T_SUDAT_OFFSET))));

      dev.regs := dev.regs.(setup := Word(Cleared(dev.regs.setup.bits, SETUP_T_HDDAT_MASK)));
      dev.regs := dev.regs.(setup := Word(Raised(dev.regs.setup.bits, Placed(HddatFor(mode), SETUP_T_HDDAT_MASK, SETUP_T_HDDAT_OFFSET))));

      dev.regs := dev.regs.(setup := Word(Cleared(dev.regs.setup.bits, SETUP_T_SCLHI_MASK)));
      dev.regs := dev.regs.(setup := Word(Raised(dev.regs.setup.bits, Placed(SclHiFor(mode), SETUP_T_SCLHI_MASK, SETUP_T_SCLHI_OFFSET))));

      dev.regs := dev.regs.(setup := Word(Cleared(dev.regs.setup.bits, SETUP_T_SCLRATIO_MASK)));
      dev.regs := dev.regs.(setup := Word(Raised(dev.regs.setup.bits, Placed(SclRatioFor(mode), SETUP_T_SCLRATIO_MASK, SETUP_T_SCLRATIO_OFFSET))));

      dev.regs := dev.regs.(setup := Word(WithEnabled(dev.regs.setup.bits)));
      return Ok;
    }

    /** I2C_ShutdownController. */
    method ShutdownController(dev: Registers?) returns (r: ReturnCode)
      modifies dev, this`trace
      ensures dev == null ==> r == InvalidInputData && trace == old(trace)
      ensures dev != null ==> && r == Ok && trace == old(trace) + [IrqDisabled]
                              && dev.regs == old(dev.regs).(setup := Word(WithDisabled(old(dev.regs.setup.bits))))
    {
      if dev == null {
        return InvalidInputData;
      }
      trace := trace + [IrqDisabled];
      dev.regs := dev.regs.(setup := Word(WithDisabled(dev.regs.setup.bits)));
      return Ok;
    }

    /** WriteAvailableData: fill the FIFO from the buffer. */
    method WriteAvailableData(dev: Registers)
      requires Valid() && dev.Valid()
      modifies this`current, dev
      ensures Valid() && dev.Valid()
      ensures Filled(dev)
    {
      ghost var rf0, t0, bytes := dev.regs, current, Pending(current);
      var moved := PushBytes(dev, current.data, current.cursor, current.remaining);
      current := current.(cursor := current.cursor + moved, remaining := current.remaining - moved);
      FillDeterminedByOutcome(rf0, t0, bytes, moved);
      if current.remaining == 0 {
        dev.regs := dev.regs.(intEn := Word(Cleared(dev.regs.intEn.bits, INTEN_FIFOEMPTY_MASK)));
      }
    }

    /** ReadAvailableData: drain the FIFO into the buffer. */
    method ReadAvailableData(dev: Registers)
      requires Valid() && dev.Valid()
      modifies this`current, dev, current.data
      ensures Valid() && dev.Valid()
      ensures Drained(dev)
    {
      ghost var rf0, t0 := dev.regs, current;
      var moved := PopBytes(dev, current.data, current.cursor, current.remaining);
      current := current.(cursor := current.cursor + moved, remaining := current.remaining - moved);
      DrainDeterminedByOutcome(rf0, t0, moved);
      if current.remaining == 0 {
        dev.regs := dev.regs.(intEn := Word(Cleared(dev.regs.intEn.bits, INTEN_FIFOFULL_MASK)));
      }
    }

    /** External interrupt controller: enable or disable the I2C interrupt source. */
    method EnableInterrupt(priority: nat)
      modifies this`trace
      ensures trace == old(trace) + [IrqEnabled(priority)]
    {
      trace := trace + [IrqEnabled(priority)];
    }

    /** SetupDataPath. */
    method SetupDataPath(dev: Registers, dmac: DmacReplies) returns (r: ReturnCode)
      requires Valid() && dev.Valid()
      modifies this`current, this`trace, dev
      ensures Valid() && dev.Valid()
      ensures var p := DataPathEffect(old(dev.regs), old(current), old(Pending(current)), dmac);
        && dev.regs == p.regs && current == p.txn && trace == old(trace) + p.events && r == p.result
    {
      if current.remaining == 0 {
        dev.regs := dev.regs.(setup := Word(Cleared(dev.regs.setup.bits, SETUP_DMAEN_MASK)));
        dev.regs := dev.regs.(intEn := Word(Cleared(dev.regs.intEn.bits, INTEN_FIFOEMPTY_MASK)));
        dev.regs := dev.regs.(intEn := Word(Cleared(dev.regs.intEn.bits, INTEN_FIFOFULL_MASK)));
        return Ok;
      }
      if current.path == UseFifo {
        dev.regs := dev.regs.(setup := Word(Cleared(dev.regs.setup.bits, SETUP_DMAEN_MASK)));
        if current.dir == Tx {
          dev.regs := dev.regs.(intEn := Word(Raised(dev.regs.intEn.bits, INTEN_FIFOEMPTY_MASK)));
          WriteAvailableData(dev);
        } else {
          dev.regs := dev.regs.(intEn := Word(Raised(dev.regs.intEn.bits, INTEN_FIFOFULL_MASK)));
        }
      } else {
        var channelConfig := ChannelConfigFor(current.dir);
        trace := trace + [DmacSetupChannel(channelConfig, false, false, false)];
        if dmac.setupChannel != DmacOk {
          return DmacError;
        }
        var transferConfig := TransferConfigFor(current);
        trace := trace + [DmacSetupTransfer(transferConfig)];
        if dmac.setupTransfer != DmacOk {
          return DmacError;
        }
        trace := trace + [DmacEnableChannel(DMAC_CHANNEL_I2C)];
        if dmac.enableChannel != DmacOk {
          return DmacError;
        }
        dev.regs := dev.regs.(intEn := Word(Cleared(dev.regs.intEn.bits, INTEN_FIFOEMPTY_MASK)));
        dev.regs := dev.regs.(intEn := Word(Cleared(dev.regs.intEn.bits, INTEN_FIFOFULL_MASK)));
        dev.regs := dev.regs.(setup := Word(Raised(dev.regs.setup.bits, SETUP_DMAEN_MASK)));
      }
      return Ok;
    }

    /** I2C_DMACCallback: anything but terminal count is reported to the callback as DMAC_ERROR. */
    method DmacCallback(code: DmacReturnCode)
      modifies this`trace
      ensures trace == old(trace) + (if code != DmacTerminalCount then CallbackEvents(current.callback, DmacError) else [])
    {
      if code != DmacTerminalCount && current.callback.Some? {
        trace := trace + [CallbackInvoked(current.callback.value, DmacError)];
      }
    }

    /**
      I2C_LaunchTransaction: `descriptor` is None for a null descriptor; `dmac`
      is what the DMA controller answers if the DMA path is taken.  The
      caller's buffer must hold `data_count` bytes.
     */
    method LaunchTransaction(dev: Registers?, descriptor: Option<Descriptor>, dmac: DmacReplies)
      returns (r: ReturnCode)
      requires Valid() && (dev != null ==> dev.Valid())
      requires descriptor.Some? && Acceptable(descriptor.value) && descriptor.value.data != null
               ==> descriptor.value.count <= descriptor.value.data.Length
      modifies dev, this`current, this`trace
      ensures Valid() && (dev != null ==> dev.Valid())
      // Validation comes first, then the enable bit, then a pending command; each rejection changes nothing.
      ensures dev == null || descriptor.None? || !Acceptable(descriptor.value) ==>
                r == InvalidInputData && current == old(current) && trace == old(trace) && (dev != null ==> unchanged(dev))
      ensures dev != null && descriptor.Some? && Acceptable(descriptor.value) && !Enabled(old(dev.regs.setup.bits)) ==>
                r == ControllerNotEnabled && current == old(current) && trace == old(trace) && unchanged(dev)
      ensures dev != null && descriptor.Some? && Acceptable(descriptor.value) && Enabled(old(dev.regs.setup.bits))
              && CommandPending(old(dev.regs.cmd.bits)) ==>
                r == CmdPending && current == old(current) && trace == old(trace) && unchanged(dev)
      // An accepted launch: record, program, set up the data path, and issue only if that succeeded.
      ensures dev != null && descriptor.Some? && Acceptable(descriptor.value) && Enabled(old(dev.regs.setup.bits))
              && !CommandPending(old(dev.regs.cmd.bits)) ==>
                var l := Launched(old(dev.regs), descriptor.value, old(DescriptorBytes(descriptor.value)), dmac);
                && dev.regs == l.regs && current == l.txn && trace == old(trace) + l.events && r == l.result
    {
      if dev == null || descriptor.None? || Rejected(descriptor.value) {
        return InvalidInputData;
      }
      var d := descriptor.value;
      if !Enabled(dev.regs.setup.bits) {
        return ControllerNotEnabled;
      }
      if CommandPending(dev.regs.cmd.bits) {
        return CmdPending;
      }
      r := Launch(dev, d, dmac);
    }

    /** The accepted part of I2C_LaunchTransaction, hal/src/I2C.c:353-402. */
    method Launch(dev: Registers, d: Descriptor, dmac: DmacReplies) returns (r: ReturnCode)
      requires Valid() && dev.Valid() && Acceptable(d) && (d.data != null ==> d.count <= d.data.Length)
      modifies dev, this`current, this`trace
      ensures Valid() && dev.Valid()
      ensures var l := Launched(old(dev.regs), d, old(DescriptorBytes(d)), dmac);
        && dev.regs == l.regs && current == l.txn && trace == old(trace) + l.events && r == l.result
    {
      ghost var rf0, bytes := dev.regs, DescriptorBytes(d);

      current := Recorded(d, dev.regs.setup.bits);

      ProgramTransfer(dev, d);
      assert current == Recorded(d, rf0.setup.bits) && Pending(current) == bytes;

      // `ret = SetupDataPath(...) != I2C_OK`: the comparison, 0 or 1, is what is stored in `ret`.
      var pathResult := SetupDataPath(dev, dmac);
      r := FromCode(if pathResult != Ok then 1 else 0);
      if r != Ok {
        return r;
      }
      IssueTransaction(dev);
      EnableInterrupt(I2C_INTERRUPT_PRIORITY);
    }

    /** I2C_DeviceIrqHandler. */
    method DeviceIrqHandler(dev: Registers?) returns (r: ReturnCode)
      requires Valid() && (dev != null ==> dev.Valid())
      modifies dev, this`current, this`trace, current.data
      ensures Valid() && (dev != null ==> dev.Valid())
      ensures r == if dev == null then InvalidInputData else Ok
      ensures dev == null ==> current == old(current) && trace == old(trace)
                              && (current.data != null ==> unchanged(current.data))
      ensures dev != null ==>
        match Dispatch(old(StatusWord(dev.regs)), old(current.dir), old(current.path))
        case Complete(outcome, drainFirst) =>
          && (drainFirst ==> Drained(dev))
          && (!drainFirst ==> unchanged(dev) && current == old(current)
                              && (current.data != null ==> unchanged(current.data)))
          && trace == old(trace) + [CmplAcknowledged] + CallbackEvents(old(current.callback), outcome)
        case Refill =>
          Filled(dev) && trace == old(trace) && (current.data != null ==> unchanged(current.data))
        case Collect =>
          Drained(dev) && trace == old(trace)
        case Ignore =>
          unchanged(dev) && current == old(current) && trace == old(trace)
          && (current.data != null ==> unchanged(current.data))
    {
      if dev == null {
        return InvalidInputData;
      }
      var status := StatusWord(dev.regs);
      if AnySet(status, STATUS_CMPL_MASK) {
        var ret := if AnySet(status, STATUS_ADDRHIT_MASK) then Ok else AddrHitError;
        if ret == Ok && current.dir == Rx && current.path != UseDma {
          ReadAvailableData(dev);
        }
        // The write-one-to-clear acknowledgement of CMPL.
        trace := trace + [CmplAcknowledged];
        if current.callback.Some? {
          trace := trace + [CallbackInvoked(current.callback.value, ret)];
        }
        return Ok;
      }
      if AnySet(status, STATUS_FIFOEMPTY_MASK) && current.dir == Tx {
        WriteAvailableData(dev);
        return Ok;
      }
      if AnySet(status, STATUS_FIFOFULL_MASK) && current.dir == Rx {
        ReadAvailableData(dev);
        return Ok;
      }
      return Ok;
    }
  }
}
