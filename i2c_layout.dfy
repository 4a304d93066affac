/**
  Register layout and enumerations of the I2C controller (hal/include/I2C.h).

  Every mask of the header, and the offsets of its multi-bit fields, are
  reproduced with their values.  Register
  words are `bv32`; a field is read as `(word & mask) >> offset` and written by
  clearing the mask and OR-ing in the shifted value, exactly as the HAL does.
 */
module I2CLayout {

  // ---------------------------------------------------------------------------
  // Bitfield access
  // ---------------------------------------------------------------------------

  /** `(w & mask) >> offset`: the field of `w` selected by `mask`. */
  function GetField(w: bv32, mask: bv32, offset: bv32): bv32
    requires offset < 32
  {
    (w & mask) >> offset
  }

  /** `w &= ~m`. */
  function Cleared(w: bv32, m: bv32): bv32 {
    w & !m
  }

  /** `w |= m`. */
  function Raised(w: bv32, m: bv32): bv32 {
    w | m
  }

  /** `(v << offset) & mask`: `v` shifted into the field selected by `mask`. */
  function Placed(v: bv32, mask: bv32, offset: bv32): bv32
    requires offset < 32
  {
    (v << offset) & mask
  }

  /** The read-modify-write the HAL uses: `w &= ~mask; w |= (v << offset) & mask`. */
  function WriteField(w: bv32, mask: bv32, offset: bv32, v: bv32): bv32
    requires offset < 32
  {
    Raised(Cleared(w, mask), Placed(v, mask, offset))
  }

  /** True when some bit of `mask` is set in `w` (a C truth test on `w & mask`). */
  predicate AnySet(w: bv32, mask: bv32) {
    w & mask != 0
  }

  /** `w &= ~m` leaves every bit of `m` clear ... */
  lemma ClearBitsClears(w: bv32, m: bv32)
    ensures !AnySet(Cleared(w, m), m)
  {
  }

  /** ... and every other bit as it was. */
  lemma ClearBitsKeepsOthers(w: bv32, m: bv32)
    ensures Cleared(w, m) & !m == w & !m
  {
  }

  /** `w |= m` leaves the bits of a non-zero `m` set ... */
  lemma SetBitsSets(w: bv32, m: bv32)
    requires m != 0
    ensures Raised(w, m) & m == m
    ensures AnySet(Raised(w, m), m)
  {
  }

  /** ... and every other bit as it was. */
  lemma SetBitsKeepsOthers(w: bv32, m: bv32)
    ensures Raised(w, m) & !m == w & !m
  {
  }

  /** The contiguous mask of `width` bits starting at `offset`. */
  function FieldMask(width: bv32, offset: bv32): bv32
    requires 0 < width <= 32 && offset < 32
  {
    (((1 as bv32) << width) - 1) << offset
  }

  // ---------------------------------------------------------------------------
  // IdRev and Cfg (read-only), hal/include/I2C.h:22-35
  // ---------------------------------------------------------------------------

  const IDREV_ID_MASK: bv32 := 0xffff_ff00
  const IDREV_ID_OFFSET: bv32 := 8
  const IDREV_MAJOR_MASK: bv32 := 0x0000_00f0
  const IDREV_MAJOR_OFFSET: bv32 := 4
  const IDREV_MINOR_MASK: bv32 := 0x0000_000f
  const IDREV_MINOR_OFFSET: bv32 := 0

  const CFG_FIFOSIZE_MASK: bv32 := 0x0000_0003
  const CFG_FIFOSIZE_OFFSET: bv32 := 0

  const FIFO_SIZE_2: bv32 := 0x0
  const FIFO_SIZE_4: bv32 := 0x1
  const FIFO_SIZE_8: bv32 := 0x2
  const FIFO_SIZE_16: bv32 := 0x3

  /** FIFO depth in bytes for a FIFOSIZE code, as ReadHWConfig computes it: `0x02 << code`. */
  function FifoDepth(code: bv32): (depth: bv32)
    requires code <= FIFO_SIZE_16
    ensures depth == 2 || depth == 4 || depth == 8 || depth == 16
  {
    (2 as bv32) << code
  }

  // ---------------------------------------------------------------------------
  // IntEn and Status, hal/include/I2C.h:37-87
  // ---------------------------------------------------------------------------

  const INTEN_CMPL_MASK: bv32 := 0x0000_0200
  const INTEN_BYTERECV_MASK: bv32 := 0x0000_0100
  const INTEN_BYTETRANS_MASK: bv32 := 0x0000_0080
  const INTEN_START_MASK: bv32 := 0x0000_0040
  const INTEN_STOP_MASK: bv32 := 0x0000_0020
  const INTEN_ARBLOSE_MASK: bv32 := 0x0000_0010
  const INTEN_ADDRHIT_MASK: bv32 := 0x0000_0008
  const INTEN_FIFOHALF_MASK: bv32 := 0x0000_0004
  const INTEN_FIFOFULL_MASK: bv32 := 0x0000_0002
  const INTEN_FIFOEMPTY_MASK: bv32 := 0x0000_0001

  const STATUS_LINESDA_MASK: bv32 := 0x0000_4000
  const STATUS_LINESCL_MASK: bv32 := 0x0000_2000
  const STATUS_GENCALL_MASK: bv32 := 0x0000_1000
  const STATUS_BUSBUSY_MASK: bv32 := 0x0000_0800
  const STATUS_ACK_MASK: bv32 := 0x0000_0400
  const STATUS_CMPL_MASK: bv32 := 0x0000_0200
  const STATUS_BYTERECV_MASK: bv32 := 0x0000_0100
  const STATUS_BYTETRANS_MASK: bv32 := 0x0000_0080
  const STATUS_START_MASK: bv32 := 0x0000_0040
  const STATUS_STOP_MASK: bv32 := 0x0000_0020
  const STATUS_ARBLOSE_MASK: bv32 := 0x0000_0010
  const STATUS_ADDRHIT_MASK: bv32 := 0x0000_0008
  const STATUS_FIFOHALF_MASK: bv32 := 0x0000_0004
  const STATUS_FIFOFULL_MASK: bv32 := 0x0000_0002
  const STATUS_FIFOEMPTY_MASK: bv32 := 0x0000_0001

  // ---------------------------------------------------------------------------
  // Addr, Data, Ctrl, Cmd, hal/include/I2C.h:89-121
  // ---------------------------------------------------------------------------

  const ADDR_ADDR_MASK: bv32 := 0x0000_03ff
  const ADDR_ADDR_OFFSET: bv32 := 0

  /** The largest 7-bit and 10-bit addresses, compared against a `uint16_t` address. */
  const ADDR_MAX_7BIT: bv16 := 0x7f
  const ADDR_MAX_10BIT: bv16 := 0x3ff

  const DATA_DATA_MASK: bv32 := 0x0000_00ff
  const DATA_DATA_OFFSET: bv32 := 0

  const CTRL_PHASE_START_MASK: bv32 := 0x0000_1000
  const CTRL_PHASE_START_OFFSET: bv32 := 12
  const CTRL_PHASE_ADDR_MASK: bv32 := 0x0000_0800
  const CTRL_PHASE_ADDR_OFFSET: bv32 := 11
  const CTRL_PHASE_DATA_MASK: bv32 := 0x0000_0400
  const CTRL_PHASE_DATA_OFFSET: bv32 := 10
  const CTRL_PHASE_STOP_MASK: bv32 := 0x0000_0200
  const CTRL_PHASE_STOP_OFFSET: bv32 := 9
  const CTRL_DIR_MASK: bv32 := 0x0000_0100
  const CTRL_DIR_OFFSET: bv32 := 8
  const CTRL_DATACNT_MASK: bv32 := 0x0000_00ff
  const CTRL_DATACNT_OFFSET: bv32 := 0

  /** The largest transfer a descriptor may ask for: `I2C_CTRL_DATACNT_MASK + 1`. */
  const MAX_DATA_COUNT: nat := 0x100

  const CMD_CMD_MASK: bv32 := 0x0000_0007
  const CMD_CMD_OFFSET: bv32 := 0

  const CMD_NO_ACTION: bv32 := 0x00
  const CMD_ISSUE_TRANSACTION: bv32 := 0x01
  const CMD_ACK_RESP: bv32 := 0x02
  const CMD_NACK_RESP: bv32 := 0x03
  const CMD_CLEAR_FIFO: bv32 := 0x04
  const CMD_RESET: bv32 := 0x05

  // ---------------------------------------------------------------------------
  // Setup and TPM, hal/include/I2C.h:123-143
  // ---------------------------------------------------------------------------

  const SETUP_T_SUDAT_MASK: bv32 := 0x1f00_0000
  const SETUP_T_SUDAT_OFFSET: bv32 := 24
  const SETUP_T_SP_MASK: bv32 := 0x00e0_0000
  const SETUP_T_SP_OFFSET: bv32 := 21
  const SETUP_T_HDDAT_MASK: bv32 := 0x001f_0000
  const SETUP_T_HDDAT_OFFSET: bv32 := 16
  const SETUP_T_SCLRATIO_MASK: bv32 := 0x0000_2000
  const SETUP_T_SCLRATIO_OFFSET: bv32 := 13
  const SETUP_T_SCLHI_MASK: bv32 := 0x0000_1ff0
  const SETUP_T_SCLHI_OFFSET: bv32 := 4
  const SETUP_DMAEN_MASK: bv32 := 0x0000_0008
  const SETUP_DMAEN_OFFSET: bv32 := 3
  const SETUP_MASTER_MASK: bv32 := 0x0000_0004
  const SETUP_MASTER_OFFSET: bv32 := 2
  const SETUP_ADDRESSING_MASK: bv32 := 0x0000_0002
  const SETUP_ADDRESSING_OFFSET: bv32 := 1
  const SETUP_IICEN_MASK: bv32 := 0x0000_0001
  const SETUP_IICEN_OFFSET: bv32 := 0

  const TPM_TPM_MASK: bv32 := 0x0000_001f
  const TPM_TPM_OFFSET: bv32 := 0

  // ---------------------------------------------------------------------------
  // Enumerations, hal/include/I2C.h:170-217
  // ---------------------------------------------------------------------------

  /** I2CReturnCode. */
  datatype ReturnCode =
    | Ok
    | InvalidInputData
    | ControllerNotEnabled
    | CmdPending
    | AddrHitError
    | DmacError

  /** I2C_NB_OF_RETURN_CODES. */
  const NB_OF_RETURN_CODES: nat := 6

  /** The numeric value C gives each enumerator. */
  function CodeOf(r: ReturnCode): nat {
    match r
    case Ok => 0
    case InvalidInputData => 1
    case ControllerNotEnabled => 2
    case CmdPending => 3
    case AddrHitError => 4
    case DmacError => 5
  }

  /** The enumerator an integer in range denotes (what an `I2CReturnCode` variable holds after `ret = n`). */
  function FromCode(n: nat): (r: ReturnCode)
    requires n < NB_OF_RETURN_CODES
    ensures CodeOf(r) == n
  {
    if n == 0 then Ok
    else if n == 1 then InvalidInputData
    else if n == 2 then ControllerNotEnabled
    else if n == 3 then CmdPending
    else if n == 4 then AddrHitError
    else DmacError
  }

  /** The C values are distinct and in range, so `CodeOf` and `FromCode` are inverse. */
  lemma ReturnCodeRoundTrip(r: ReturnCode)
    ensures CodeOf(r) < NB_OF_RETURN_CODES && FromCode(CodeOf(r)) == r
  {
  }

  /** _I2CMode: the mode travels as a byte (`I2CMode` is `uint8_t`), so unsupported values exist. */
  type Byte = x: int | 0 <= x < 0x100

  const STANDARD_MODE: Byte := 0
  const FAST_MODE: Byte := 1
  const FAST_MODE_PLUS: Byte := 2
  const UNSUPPORTED_MODE: Byte := 3

  /** _I2CDirection: I2C_TX = 0, I2C_RX = 1. */
  datatype Direction = Tx | Rx {
    function Value(): bv32 { if Tx? then 0 else 1 }
  }

  /** _I2CRole: I2C_SLAVE = 0, I2C_MASTER = 1. */
  datatype Role = Slave | Master {
    function Value(): bv32 { if Slave? then 0 else 1 }
  }

  /** _I2CAddressingMode: 7-bit = 0, 10-bit = 1. */
  datatype AddressingMode = SevenBit | TenBit {
    function Value(): bv32 { if SevenBit? then 0 else 1 }
  }

  /** _I2CDataPath: I2C_USE_FIFO = 0, I2C_USE_DMA = 1. */
  datatype DataPath = UseFifo | UseDma

  // ---------------------------------------------------------------------------
  // Layout facts
  // ---------------------------------------------------------------------------

  /** Each Setup mask is the contiguous field of its width at its offset. */
  lemma SetupMasksAreFields()
    ensures SETUP_T_SUDAT_MASK == FieldMask(5, SETUP_T_SUDAT_OFFSET)
    ensures SETUP_T_SP_MASK == FieldMask(3, SETUP_T_SP_OFFSET)
    ensures SETUP_T_HDDAT_MASK == FieldMask(5, SETUP_T_HDDAT_OFFSET)
    ensures SETUP_T_SCLRATIO_MASK == FieldMask(1, SETUP_T_SCLRATIO_OFFSET)
    ensures SETUP_T_SCLHI_MASK == FieldMask(9, SETUP_T_SCLHI_OFFSET)
    ensures SETUP_DMAEN_MASK == FieldMask(1, SETUP_DMAEN_OFFSET)
    ensures SETUP_MASTER_MASK == FieldMask(1, SETUP_MASTER_OFFSET)
    ensures SETUP_ADDRESSING_MASK == FieldMask(1, SETUP_ADDRESSING_OFFSET)
    ensures SETUP_IICEN_MASK == FieldMask(1, SETUP_IICEN_OFFSET)
  {
  }

  /** The nine Setup fields are pairwise disjoint. */
  lemma SetupFieldsDisjoint()
    ensures var fields := [SETUP_T_SUDAT_MASK, SETUP_T_SP_MASK, SETUP_T_HDDAT_MASK,
                           SETUP_T_SCLRATIO_MASK, SETUP_T_SCLHI_MASK, SETUP_DMAEN_MASK,
                           SETUP_MASTER_MASK, SETUP_ADDRESSING_MASK, SETUP_IICEN_MASK];
            forall i, j :: 0 <= i < j < |fields| ==> fields[i] & fields[j] == 0
  {
  }

  /** The Ctrl fields are contiguous at their offsets and pairwise disjoint. */
  lemma CtrlFieldsDisjoint()
    ensures CTRL_PHASE_START_MASK == FieldMask(1, CTRL_PHASE_START_OFFSET)
    ensures CTRL_PHASE_ADDR_MASK == FieldMask(1, CTRL_PHASE_ADDR_OFFSET)
    ensures CTRL_PHASE_DATA_MASK == FieldMask(1, CTRL_PHASE_DATA_OFFSET)
    ensures CTRL_PHASE_STOP_MASK == FieldMask(1, CTRL_PHASE_STOP_OFFSET)
    ensures CTRL_DIR_MASK == FieldMask(1, CTRL_DIR_OFFSET)
    ensures CTRL_DATACNT_MASK == FieldMask(8, CTRL_DATACNT_OFFSET)
    ensures var fields := [CTRL_PHASE_START_MASK, CTRL_PHASE_ADDR_MASK, CTRL_PHASE_DATA_MASK,
                           CTRL_PHASE_STOP_MASK, CTRL_DIR_MASK, CTRL_DATACNT_MASK];
            forall i, j :: 0 <= i < j < |fields| ==> fields[i] & fields[j] == 0
  {
  }

  /** CMPL, ADDRHIT, FIFOFULL and FIFOEMPTY are distinct single bits of Status. */
  lemma StatusBitsDistinct()
    ensures var bits := [STATUS_CMPL_MASK, STATUS_ADDRHIT_MASK, STATUS_FIFOFULL_MASK, STATUS_FIFOEMPTY_MASK];
            (forall i :: 0 <= i < |bits| ==> bits[i] != 0 && bits[i] & (bits[i] - 1) == 0) &&
            (forall i, j :: 0 <= i < j < |bits| ==> bits[i] & bits[j] == 0)
  {
  }

  /** Address limits: 7-bit <= 10-bit, and the Addr field is exactly ten bits wide. */
  lemma AddressLimitsFitField()
    ensures ADDR_MAX_7BIT <= ADDR_MAX_10BIT
    ensures ADDR_ADDR_MASK == FieldMask(10, ADDR_ADDR_OFFSET)
    ensures ADDR_MAX_10BIT as bv32 == ADDR_ADDR_MASK
  {
  }

  /** An address within the 10-bit limit passes `(a << 0) & I2C_ADDR_ADDR_MASK` unchanged. */
  lemma AddressWrittenUntruncated(a: bv16)
    requires a <= ADDR_MAX_10BIT
    ensures ((a as bv32) << ADDR_ADDR_OFFSET) & ADDR_ADDR_MASK == a as bv32
  {
  }

  /** DATACNT is eight bits, so every count up to 255 is kept and the maximum, 256, encodes as 0. */
  lemma DataCountEncoding(count: nat)
    requires count <= MAX_DATA_COUNT
    ensures MAX_DATA_COUNT as bv32 == CTRL_DATACNT_MASK + 1
    ensures count < MAX_DATA_COUNT ==> ((count as bv32) << CTRL_DATACNT_OFFSET) & CTRL_DATACNT_MASK == count as bv32
    ensures count == MAX_DATA_COUNT ==> ((count as bv32) << CTRL_DATACNT_OFFSET) & CTRL_DATACNT_MASK == 0
  {
  }

  /**
    The CMD field is three bits and every command code fits in it; NO_ACTION
    reads as "not pending", every other command as pending, and a Cmd word
    reads as "not pending" exactly when its CMD field holds NO_ACTION.
   */
  lemma CommandCodesFit()
    ensures CMD_CMD_MASK == FieldMask(3, CMD_CMD_OFFSET)
    ensures forall c :: c in [CMD_NO_ACTION, CMD_ISSUE_TRANSACTION, CMD_ACK_RESP, CMD_NACK_RESP, CMD_CLEAR_FIFO, CMD_RESET] ==>
              (c << CMD_CMD_OFFSET) & CMD_CMD_MASK == c
    ensures !AnySet(CMD_NO_ACTION << CMD_CMD_OFFSET, CMD_CMD_MASK)
    ensures forall c :: c in [CMD_ISSUE_TRANSACTION, CMD_ACK_RESP, CMD_NACK_RESP, CMD_CLEAR_FIFO, CMD_RESET] ==>
              AnySet(c << CMD_CMD_OFFSET, CMD_CMD_MASK)
    ensures forall w: bv32 :: !AnySet(w, CMD_CMD_MASK) <==> w & CMD_CMD_MASK == CMD_NO_ACTION
  {
  }

  /** The FIFOSIZE codes 0..3 stand for depths 2, 4, 8 and 16. */
  lemma FifoSizeCodes()
    ensures CFG_FIFOSIZE_MASK == FieldMask(2, CFG_FIFOSIZE_OFFSET)
    ensures FifoDepth(FIFO_SIZE_2) == 2 && FifoDepth(FIFO_SIZE_4) == 4
    ensures FifoDepth(FIFO_SIZE_8) == 8 && FifoDepth(FIFO_SIZE_16) == 16
  {
  }

  /** Enum values as C numbers them. */
  lemma EnumValues()
    ensures CodeOf(Ok) == 0 && CodeOf(InvalidInputData) == 1 && CodeOf(DmacError) == 5
    ensures STANDARD_MODE == 0 && FAST_MODE == 1 && FAST_MODE_PLUS == 2 && UNSUPPORTED_MODE == 3
    ensures Tx.Value() == 0 && Rx.Value() == 1 && Slave.Value() == 0 && Master.Value() == 1
    ensures SevenBit.Value() == 0 && TenBit.Value() == 1
  {
  }
}
