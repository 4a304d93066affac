/*
  The Si7021 humidity and temperature sensor driver (src/Si7021.c,
  include/Si7021.h): the CRC-8 that guards each measurement, the decoding of
  measurement and revision responses, the bounded read-retry loop, and the
  address check and reset of Si7021_Acquire.

  The I2C wrapper the driver calls is the environment: `bus(n)` is what the
  n-th call of I2CWrapper_LaunchI2CTransaction answers.  Delays, mutex
  operations and bus transfers are recorded in a log.
*/
module Si7021 {
  import I2CLayout

  datatype Option<T> = None | Some(value: T)

  type U16 = x: int | 0 <= x < 0x1_0000

  // ===========================================================================
  // Constants, include/Si7021.h:18-37
  // ===========================================================================

  const DEFAULT_ADDR: U16 := 0x40
  const MAX_CMD_LENGTH: nat := 2
  const MAX_RSP_LENGTH: nat := 3

  const RESET_CMD: bv8 := 0xFE
  const RESET_DELAY: nat := 15

  const REVISION_CMD: bv16 := 0x84B8
  const REVISION_RSP_LEN: nat := 2

  const MEASTEMP_NOHOLD_CMD: bv8 := 0xF3
  const MEASTEMP_NOHOLD_RSP_LEN: nat := 3
  const MEASTEMP_DELAY: nat := 20

  const MEASRH_NOHOLD_CMD: bv8 := 0xF5
  const MEASRH_NOHOLD_RSP_LEN: nat := 3
  const MEASRH_DELAY: nat := 20

  /** x^8 + x^5 + x^4 + 1, aligned so that its x^8 term sits on bit 16. */
  const CRC8_POLY: bv32 := 0x13100
  const MAX_READ_VAL_ATTEMPTS: nat := 4

  /** Si7021ReturnCode. */
  datatype ReturnCode = Ok | InvalidInputData | MutexNotCreated | TaskNotCreated
                      | MutexUnavailable | I2cError | ChecksumError

  /** Si7021FirmwareRevision. */
  datatype FirmwareRevision = Rev1 | Rev2 | RevUnknown {
    function Value(): nat {
      match this
      case Rev1 => 1
      case Rev2 => 2
      case RevUnknown => 3
    }
  }

  /** The command bytes are the two halves of the 16-bit revision command, high byte first. */
  lemma RevisionCommandBytes()
    ensures (REVISION_CMD >> 8) as bv8 == 0x84 && (REVISION_CMD & 0xFF) as bv8 == 0xB8
    ensures (((REVISION_CMD >> 8) as bv8 as bv16) << 8) | (REVISION_CMD & 0xFF) as bv8 as bv16 == REVISION_CMD
  {
  }

  // ===========================================================================
  // CRC-8, src/Si7021.c:61-71
  // ===========================================================================

  /** The polynomial term XOR-ed in when bit 15 is shifted out: its low 16 bits, 0x3100, or nothing. */
  function Feedback(d: bv16): (f: bv16)
    ensures f == 0 || f == 0x3100
  {
    (0 - (d >> 15)) & 0x3100
  }

  /** One round on the 16-bit `data`. */
  function CrcRound(d: bv16): bv16 {
    (d << 1) ^ Feedback(d)
  }

  /**
    The round as C writes it when bit 15 is set: `data` is promoted to int,
    shifted, XOR-ed with the polynomial and truncated back to 16 bits by the
    assignment; the polynomial's bit 16 cancels the bit shifted out.
   */
  lemma RoundWhenHighBitSet(d: bv16)
    requires d & 0x8000 != 0
    ensures (((d as bv32 << 1) ^ CRC8_POLY) & 0xFFFF) as bv16 == CrcRound(d)
  {
  }

  /** The round as C writes it when bit 15 is clear: a plain shift, truncated. */
  lemma RoundWhenHighBitClear(d: bv16)
    requires d & 0x8000 == 0
    ensures ((d as bv32 << 1) & 0xFFFF) as bv16 == CrcRound(d)
  {
  }

  /** The number of rounds, one per bit of the code. */
  const ROUNDS: nat := 16

  /** `data` after `n` rounds. */
  function CrcRounds(d: bv16, n: nat): bv16 {
    if n == 0 then d else CrcRound(CrcRounds(d, n - 1))
  }

  /** Si7021_ComputeCRC8: the high byte after sixteen rounds. */
  function Crc8(d: bv16): bv8 {
    (CrcRounds(d, ROUNDS) >> 8) as bv8
  }

  /** Si7021_ComputeCRC8 as written: a sixteen-iteration loop on a local. */
  method ComputeCrc8(data: bv16) returns (crc: bv8)
    ensures crc == Crc8(data)
  {
    var d := data;
    for bit := 0 to ROUNDS
      invariant d == CrcRounds(data, bit)
    {
      if d & 0x8000 != 0 {
        RoundWhenHighBitSet(d);
        d := (((d as bv32 << 1) ^ CRC8_POLY) & 0xFFFF) as bv16;
      } else {
        RoundWhenHighBitClear(d);
        d := ((d as bv32 << 1) & 0xFFFF) as bv16;
      }
    }
    crc := (d >> 8) as bv8;
  }

  /** Rounds compose: `m` rounds followed by `n` more are `m + n` rounds. */
  lemma {:induction false} CrcRoundsAdd(d: bv16, m: nat, n: nat)
    ensures CrcRounds(d, m + n) == CrcRounds(CrcRounds(d, m), n)
  {
    if n > 0 {
      CrcRoundsAdd(d, m, n - 1);
    }
  }

  /** A round is linear over XOR. */
  lemma CrcRoundLinear(a: bv16, b: bv16)
    ensures CrcRound(a ^ b) == CrcRound(a) ^ CrcRound(b)
  {
  }

  /** Any number of rounds is linear over XOR. */
  lemma {:induction false} CrcRoundsLinear(a: bv16, b: bv16, n: nat)
    ensures CrcRounds(a ^ b, n) == CrcRounds(a, n) ^ CrcRounds(b, n)
  {
    if n > 0 {
      CrcRoundsLinear(a, b, n - 1);
      CrcRoundLinear(CrcRounds(a, n - 1), CrcRounds(b, n - 1));
    }
  }

  /** The checksum of the XOR of two codes is the XOR of their checksums. */
  lemma Crc8Linear(a: bv16, b: bv16)
    ensures Crc8(a ^ b) == Crc8(a) ^ Crc8(b)
  {
    CrcRoundsLinear(a, b, ROUNDS);
  }

  /** The first test vector of cpputest/tests/Si7021Tests.cpp:129-145, round by round. */
  lemma CrcFirstTestVector()
    ensures Crc8(0x65CC) == 0x18 && Crc8(0x65CC) != 0x17
  {
    assert CrcRounds(0x65CC, 1) == 0xCB98;
    assert CrcRounds(0x65CC, 2) == 0xA630;
    assert CrcRounds(0x65CC, 3) == 0x7D60;
    assert CrcRounds(0x65CC, 4) == 0xFAC0;
    assert CrcRounds(0x65CC, 5) == 0xC480;
    assert CrcRounds(0x65CC, 6) == 0xB800;
    assert CrcRounds(0x65CC, 7) == 0x4100;
    assert CrcRounds(0x65CC, 8) == 0x8200;
    assert CrcRounds(0x65CC, 9) == 0x3500;
    assert CrcRounds(0x65CC, 10) == 0x6A00;
    assert CrcRounds(0x65CC, 11) == 0xD400;
    assert CrcRounds(0x65CC, 12) == 0x9900;
    assert CrcRounds(0x65CC, 13) == 0x0300;
    assert CrcRounds(0x65CC, 14) == 0x0600;
    assert CrcRounds(0x65CC, 15) == 0x0C00;
    assert CrcRounds(0x65CC, 16) == 0x1800;
  }

  /** The second test vector of cpputest/tests/Si7021Tests.cpp:129-145, round by round. */
  lemma CrcSecondTestVector()
    ensures Crc8(0x7D52) == 0x67 && Crc8(0x7D52) != 0x68
  {
    assert CrcRounds(0x7D52, 1) == 0xFAA4;
    assert CrcRounds(0x7D52, 2) == 0xC448;
    assert CrcRounds(0x7D52, 3) == 0xB990;
    assert CrcRounds(0x7D52, 4) == 0x4220;
    assert CrcRounds(0x7D52, 5) == 0x8440;
    assert CrcRounds(0x7D52, 6) == 0x3980;
    assert CrcRounds(0x7D52, 7) == 0x7300;
    assert CrcRounds(0x7D52, 8) == 0xE600;
    assert CrcRounds(0x7D52, 9) == 0xFD00;
    assert CrcRounds(0x7D52, 10) == 0xCB00;
    assert CrcRounds(0x7D52, 11) == 0xA700;
    assert CrcRounds(0x7D52, 12) == 0x7F00;
    assert CrcRounds(0x7D52, 13) == 0xFE00;
    assert CrcRounds(0x7D52, 14) == 0xCD00;
    assert CrcRounds(0x7D52, 15) == 0xAB00;
    assert CrcRounds(0x7D52, 16) == 0x6700;
  }

  /** The code with only bit `i` set. */
  function Bit(i: bv4): bv16 {
    1 << i
  }

  /**
    The register started from 1: the first fifteen rounds walk the bit up to
    bit 15, and the low byte stays clear from round 8 on, so the checksum of
    bit `i` is the high byte after `16 + i` rounds from 1.
   */
  lemma CrcRoundsFromOne()
    ensures CrcRounds(1, 1) == 0x0002
    ensures CrcRounds(1, 2) == 0x0004
    ensures CrcRounds(1, 3) == 0x0008
    ensures CrcRounds(1, 4) == 0x0010
    ensures CrcRounds(1, 5) == 0x0020
    ensures CrcRounds(1, 6) == 0x0040
    ensures CrcRounds(1, 7) == 0x0080
    ensures CrcRounds(1, 8) == 0x0100
    ensures CrcRounds(1, 9) == 0x0200
    ensures CrcRounds(1, 10) == 0x0400
    ensures CrcRounds(1, 11) == 0x0800
    ensures CrcRounds(1, 12) == 0x1000
    ensures CrcRounds(1, 13) == 0x2000
    ensures CrcRounds(1, 14) == 0x4000
    ensures CrcRounds(1, 15) == 0x8000
    ensures CrcRounds(1, 16) == 0x3100
    ensures CrcRounds(1, 17) == 0x6200
    ensures CrcRounds(1, 18) == 0xC400
    ensures CrcRounds(1, 19) == 0xB900
    ensures CrcRounds(1, 20) == 0x4300
    ensures CrcRounds(1, 21) == 0x8600
    ensures CrcRounds(1, 22) == 0x3D00
    ensures CrcRounds(1, 23) == 0x7A00
    ensures CrcRounds(1, 24) == 0xF400
    ensures CrcRounds(1, 25) == 0xD900
    ensures CrcRounds(1, 26) == 0x8300
    ensures CrcRounds(1, 27) == 0x3700
    ensures CrcRounds(1, 28) == 0x6E00
    ensures CrcRounds(1, 29) == 0xDC00
    ensures CrcRounds(1, 30) == 0x8900
    ensures CrcRounds(1, 31) == 0x2300
  {
    assert CrcRounds(1, 1) == 0x0002;
    assert CrcRounds(1, 2) == 0x0004;
    assert CrcRounds(1, 3) == 0x0008;
    assert CrcRounds(1, 4) == 0x0010;
    assert CrcRounds(1, 5) == 0x0020;
    assert CrcRounds(1, 6) == 0x0040;
    assert CrcRounds(1, 7) == 0x0080;
    assert CrcRounds(1, 8) == 0x0100;
    assert CrcRounds(1, 9) == 0x0200;
    assert CrcRounds(1, 10) == 0x0400;
    assert CrcRounds(1, 11) == 0x0800;
    assert CrcRounds(1, 12) == 0x1000;
    assert CrcRounds(1, 13) == 0x2000;
    assert CrcRounds(1, 14) == 0x4000;
    assert CrcRounds(1, 15) == 0x8000;
    assert CrcRounds(1, 16) == 0x3100;
    assert CrcRounds(1, 17) == 0x6200;
    assert CrcRounds(1, 18) == 0xC400;
    assert CrcRounds(1, 19) == 0xB900;
    assert CrcRounds(1, 20) == 0x4300;
    assert CrcRounds(1, 21) == 0x8600;
    assert CrcRounds(1, 22) == 0x3D00;
    assert CrcRounds(1, 23) == 0x7A00;
    assert CrcRounds(1, 24) == 0xF400;
    assert CrcRounds(1, 25) == 0xD900;
    assert CrcRounds(1, 26) == 0x8300;
    assert CrcRounds(1, 27) == 0x3700;
    assert CrcRounds(1, 28) == 0x6E00;
    assert CrcRounds(1, 29) == 0xDC00;
    assert CrcRounds(1, 30) == 0x8900;
    assert CrcRounds(1, 31) == 0x2300;
  }

  /** The checksum of a low-byte single-bit code is not zero. */
  lemma LowBitChecksumNonZero(i: bv4)
    requires i < 8
    ensures Crc8(Bit(i)) != 0
  {
    CrcRoundsFromOne();
    if i == 0 { CrcRoundsAdd(1, 0, ROUNDS); assert Bit(0) == 1; }
    else if i == 1 { CrcRoundsAdd(1, 1, ROUNDS); assert Bit(1) == CrcRounds(1, 1); }
    else if i == 2 { CrcRoundsAdd(1, 2, ROUNDS); assert Bit(2) == CrcRounds(1, 2); }
    else if i == 3 { CrcRoundsAdd(1, 3, ROUNDS); assert Bit(3) == CrcRounds(1, 3); }
    else if i == 4 { CrcRoundsAdd(1, 4, ROUNDS); assert Bit(4) == CrcRounds(1, 4); }
    else if i == 5 { CrcRoundsAdd(1, 5, ROUNDS); assert Bit(5) == CrcRounds(1, 5); }
    else if i == 6 { CrcRoundsAdd(1, 6, ROUNDS); assert Bit(6) == CrcRounds(1, 6); }
    else { CrcRoundsAdd(1, 7, ROUNDS); assert Bit(7) == CrcRounds(1, 7); }
  }

  /** The checksum of a high-byte single-bit code is not zero. */
  lemma HighBitChecksumNonZero(i: bv4)
    requires i >= 8
    ensures Crc8(Bit(i)) != 0
  {
    CrcRoundsFromOne();
    if i == 8 { CrcRoundsAdd(1, 8, ROUNDS); assert Bit(8) == CrcRounds(1, 8); }
    else if i == 9 { CrcRoundsAdd(1, 9, ROUNDS); assert Bit(9) == CrcRounds(1, 9); }
    else if i == 10 { CrcRoundsAdd(1, 10, ROUNDS); assert Bit(10) == CrcRounds(1, 10); }
    else if i == 11 { CrcRoundsAdd(1, 11, ROUNDS); assert Bit(11) == CrcRounds(1, 11); }
    else if i == 12 { CrcRoundsAdd(1, 12, ROUNDS); assert Bit(12) == CrcRounds(1, 12); }
    else if i == 13 { CrcRoundsAdd(1, 13, ROUNDS); assert Bit(13) == CrcRounds(1, 13); }
    else if i == 14 { CrcRoundsAdd(1, 14, ROUNDS); assert Bit(14) == CrcRounds(1, 14); }
    else { CrcRoundsAdd(1, 15, ROUNDS); assert Bit(15) == CrcRounds(1, 15); }
  }

  /** No single-bit code has a zero checksum. */
  lemma SingleBitChecksumNonZero(i: bv4)
    ensures Crc8(Bit(i)) != 0
  {
    if i < 8 {
      LowBitChecksumNonZero(i);
    } else {
      HighBitChecksumNonZero(i);
    }
  }

  /** Flipping any one bit of a code changes its checksum. */
  lemma SingleBitErrorChangesChecksum(code: bv16, i: bv4)
    ensures Crc8(code ^ Bit(i)) != Crc8(code)
  {
    Crc8Linear(code, Bit(i));
    SingleBitChecksumNonZero(i);
  }

  // ===========================================================================
  // Response decoding, src/Si7021.c:276-288 and 308-315
  // ===========================================================================

  /** `(rsp_buffer[0] << 8) | rsp_buffer[1]`. */
  function MeasurementCode(msb: bv8, lsb: bv8): bv16 {
    (msb as bv16 << 8) | lsb as bv16
  }

  /** The three response bytes the sensor sends for `code`: MSB, LSB, checksum. */
  function Encoded(code: bv16): (rsp: seq<bv8>)
    ensures |rsp| == MAX_RSP_LENGTH
  {
    [(code >> 8) as bv8, (code & 0xFF) as bv8, Crc8(code)]
  }

  /** The measurement code of a response, or None on a checksum mismatch. */
  function DecodeMeasurement(rsp: seq<bv8>): (r: Option<bv16>)
    requires |rsp| == MAX_RSP_LENGTH
  {
    var code := MeasurementCode(rsp[0], rsp[1]);
    if Crc8(code) != rsp[2] then None else Some(code)
  }

  /** The MSB/LSB split and the assembly are inverse. */
  lemma MeasurementCodeOfHalves(code: bv16)
    ensures MeasurementCode((code >> 8) as bv8, (code & 0xFF) as bv8) == code
  {
  }

  /** A response is accepted exactly when it is the encoding of its code. */
  lemma DecodeAcceptsExactlyEncodings(rsp: seq<bv8>)
    requires |rsp| == MAX_RSP_LENGTH
    ensures DecodeMeasurement(rsp).Some? <==> rsp == Encoded(MeasurementCode(rsp[0], rsp[1]))
  {
    MeasurementCodeHalves(rsp[0], rsp[1]);
  }

  /** Splitting an assembled code gives back its bytes. */
  lemma MeasurementCodeHalves(msb: bv8, lsb: bv8)
    ensures (MeasurementCode(msb, lsb) >> 8) as bv8 == msb && (MeasurementCode(msb, lsb) & 0xFF) as bv8 == lsb
  {
  }

  /** Decoding what the sensor sent for a code returns that code. */
  lemma DecodeEncoded(code: bv16)
    ensures DecodeMeasurement(Encoded(code)) == Some(code)
  {
    MeasurementCodeOfHalves(code);
  }

  /** A response with one flipped bit in its MSB or LSB is a checksum error. */
  lemma SingleBitCorruptionDetected(code: bv16, i: bv4)
    ensures var e := Encoded(code ^ Bit(i));
      DecodeMeasurement([e[0], e[1], Crc8(code)]) == None
  {
    MeasurementCodeOfHalves(code ^ Bit(i));
    SingleBitErrorChangesChecksum(code, i);
  }

  /** The test measurements: the valid ones decode, the corrupted checksums are rejected. */
  lemma MeasurementTestVectors()
    ensures DecodeMeasurement([0x65, 0xCC, 0x18]) == Some(0x65CC)
    ensures DecodeMeasurement([0x65, 0xCC, 0x17]) == None
    ensures DecodeMeasurement([0x7D, 0x52, 0x67]) == Some(0x7D52)
    ensures DecodeMeasurement([0x7D, 0x52, 0x68]) == None
  {
    CrcFirstTestVector();
    CrcSecondTestVector();
    assert MeasurementCode(0x65, 0xCC) == 0x65CC;
    assert MeasurementCode(0x7D, 0x52) == 0x7D52;
  }

  /** The revision byte: 0x20 is revision 2, 0xFF revision 1, anything else unknown. */
  function DecodeRevision(b: bv8): (rev: FirmwareRevision)
    ensures rev == Rev2 <==> b == 0x20
    ensures rev == Rev1 <==> b == 0xFF
  {
    if b == 0x20 then Rev2 else if b == 0xFF then Rev1 else RevUnknown
  }

  /** The byte each known revision reports. */
  function RevisionByte(rev: FirmwareRevision): bv8
    requires rev != RevUnknown
  {
    if rev == Rev2 then 0x20 else 0xFF
  }

  /** Known revisions round-trip through their byte; the test's 0x30 is unknown. */
  lemma DecodeRevisionByte(rev: FirmwareRevision)
    requires rev != RevUnknown
    ensures DecodeRevision(RevisionByte(rev)) == rev
    ensures DecodeRevision(0x30) == RevUnknown
  {
  }

  // ===========================================================================
  // The I2C wrapper as seen by the driver
  // ===========================================================================

  /** I2CWrapperReturnCode. */
  datatype WrapperCode = WrapperOk | WrapperInvalidInputData | WrapperMutexNotCreated
                       | WrapperMutexUnavailable | WrapperI2cError

  /** What one wrapper call answers: its return code and, for a read, the bytes the sensor sent. */
  datatype Answer = Answer(code: WrapperCode, bytes: seq<bv8>)

  /** What the driver did, in order. */
  datatype Event =
    | Written(address: U16, bytes: seq<bv8>)   // a TX transaction of these bytes
    | ReadRequested(address: U16, count: nat)  // an RX transaction of `count` bytes
    | Delayed(ms: nat)                         // vTaskDelay
    | MutexTaken
    | MutexGiven

  /** Si7021_Write and Si7021_Read map every wrapper failure to SI7021_I2C_ERROR. */
  function WrapperResult(c: WrapperCode): (r: ReturnCode)
    ensures r == Ok || r == I2cError
    ensures r == Ok <==> c == WrapperOk
  {
    if c == WrapperOk then Ok else I2cError
  }

  /** The response buffer after a successful read: the first `len` bytes come from the sensor. */
  function Delivered(buf: seq<bv8>, bytes: seq<bv8>, len: nat): (r: seq<bv8>)
    requires len <= |buf|
  {
    seq(|buf|, i requires 0 <= i < |buf| => if i < len && i < |bytes| then bytes[i] else buf[i])
  }

  /** `len` zero bytes followed by the rest of `buf`: the clearing loops of src/Si7021.c:148-150 and 260-262. */
  function Zeroed(buf: seq<bv8>, len: nat): (r: seq<bv8>)
    requires len <= |buf|
    ensures |r| == |buf| && r[len..] == buf[len..]
    ensures forall i :: 0 <= i < len ==> r[i] == 0
  {
    seq(len, _ => 0 as bv8) + buf[len..]
  }

  // ===========================================================================
  // The retry loop, src/Si7021.c:151-155
  // ===========================================================================

  /**
    How many reads the do-while loop makes when the answers start at call
    `n` and `left` attempts remain: it stops at the first success or when the
    attempts are used up.
   */
  function Attempts(bus: nat -> Answer, n: nat, left: nat): (k: nat)
    requires left >= 1
    ensures 1 <= k <= left
    decreases left
  {
    if bus(n).code == WrapperOk || left == 1 then 1 else 1 + Attempts(bus, n + 1, left - 1)
  }

  /** Every read before the last one failed, and the loop stops early only on a success. */
  lemma {:induction false} AttemptsStopAtFirstSuccess(bus: nat -> Answer, n: nat, left: nat)
    requires left >= 1
    ensures var k := Attempts(bus, n, left);
      && (forall j :: n <= j < n + k - 1 ==> bus(j).code != WrapperOk)
      && (k < left ==> bus(n + k - 1).code == WrapperOk)
    decreases left
  {
    if bus(n).code != WrapperOk && left > 1 {
      AttemptsStopAtFirstSuccess(bus, n + 1, left - 1);
    }
  }

  /** The read requests the retry loop makes. */
  function ReadRequests(address: U16, count: nat, k: nat): (events: seq<Event>)
    ensures |events| == k && forall e :: e in events ==> e == ReadRequested(address, count)
  {
    if k == 0 then [] else ReadRequests(address, count, k - 1) + [ReadRequested(address, count)]
  }

  /** A read that fails leaves at most the attempts left minus one more; a first success stops at once. */
  lemma AttemptsFirstSuccess(bus: nat -> Answer, n: nat, left: nat)
    requires left >= 1
    ensures bus(n).code == WrapperOk ==> Attempts(bus, n, left) == 1
    ensures left > 1 && bus(n).code != WrapperOk ==> Attempts(bus, n, left) == 1 + Attempts(bus, n + 1, left - 1)
  {
  }

  /** If every answer fails, all the attempts are used. */
  lemma {:induction false} AllFailuresUseAllAttempts(bus: nat -> Answer, n: nat, left: nat)
    requires left >= 1
    requires forall j :: n <= j < n + left ==> bus(j).code != WrapperOk
    ensures Attempts(bus, n, left) == left
    decreases left
  {
    if left > 1 {
      AllFailuresUseAllAttempts(bus, n + 1, left - 1);
    }
  }

  // ===========================================================================
  // The driver, src/Si7021.c:33-59 and 94-158, 226-348
  // ===========================================================================

  /**
    The driver's static state `_Si7021`: the address, the command and response
    buffers and the mutex, plus the wrapper calls made so far and the log.
   */
  class Driver {
    /** What the wrapper answers to its n-th call. */
    const bus: nat -> Answer
    /** `_Si7021.addr`. */
    var addr: U16
    /** `_Si7021.cmd_buffer`. */
    const cmdBuffer: array<bv8>
    /** `_Si7021.rsp_buffer`. */
    const rspBuffer: array<bv8>
    /** Whether `_Si7021.mutex` is taken. */
    var mutexHeld: bool
    /** How many wrapper calls have been made. */
    var calls: nat
    /** Everything the driver did, in order. */
    var log: seq<Event>

    ghost predicate Valid()
    {
      cmdBuffer.Length == MAX_CMD_LENGTH && rspBuffer.Length == MAX_RSP_LENGTH && cmdBuffer != rspBuffer
    }

    constructor (bus: nat -> Answer)
      ensures Valid() && this.bus == bus && addr == 0 && !mutexHeld && calls == 0 && log == []
      ensures fresh(cmdBuffer) && fresh(rspBuffer)
    {
      this.bus := bus;
      addr := 0;
      cmdBuffer := new bv8[MAX_CMD_LENGTH];
      rspBuffer := new bv8[MAX_RSP_LENGTH];
      mutexHeld := false;
      calls := 0;
      log := [];
    }

    /** Si7021_Write: a TX transaction of the first `len` command bytes. */
    method Write(len: nat) returns (r: ReturnCode)
      requires Valid() && 1 <= len <= MAX_CMD_LENGTH
      modifies this`calls, this`log
      ensures calls == old(calls) + 1 && r == WrapperResult(bus(old(calls)).code)
      ensures log == old(log) + [Written(addr, cmdBuffer[..len])]
    {
      log := log + [Written(addr, cmdBuffer[..len])];
      r := WrapperResult(bus(calls).code);
      calls := calls + 1;
    }

    /**
      Si7021_Read: an RX transaction of `len` bytes into the response buffer.
      A successful read delivers the sensor's bytes; a failed one is taken to
      leave the buffer as it was.
     */
    method Read(len: nat) returns (r: ReturnCode)
      requires Valid() && 1 <= len <= MAX_RSP_LENGTH
      modifies this`calls, this`log, rspBuffer
      ensures calls == old(calls) + 1 && r == WrapperResult(bus(old(calls)).code)
      ensures log == old(log) + [ReadRequested(addr, len)]
      ensures rspBuffer[..] == if r == Ok then Delivered(old(rspBuffer[..]), bus(old(calls)).bytes, len)
                               else old(rspBuffer[..])
    {
      log := log + [ReadRequested(addr, len)];
      var answer := bus(calls);
      r := WrapperResult(answer.code);
      calls := calls + 1;
      if r == Ok {
        ghost var before := rspBuffer[..];
        forall i | 0 <= i < len && i < |answer.bytes| {
          rspBuffer[i] := answer.bytes[i];
        }
        assert rspBuffer[..] == Delivered(before, answer.bytes, len);
      }
    }

    /** The clearing loop: the first `len` response bytes become 0. */
    method ClearResponse(len: nat)
      requires Valid() && len <= MAX_RSP_LENGTH
      modifies rspBuffer
      ensures rspBuffer[..] == Zeroed(old(rspBuffer[..]), len)
    {
      for i := 0 to len
        invariant forall j :: 0 <= j < i ==> rspBuffer[j] == 0
        invariant forall j :: i <= j < rspBuffer.Length ==> rspBuffer[j] == old(rspBuffer[j])
      {
        rspBuffer[i] := 0;
      }
      assert rspBuffer[..] == Zeroed(old(rspBuffer[..]), len);
    }

    /**
      Si7021_PerformMeasurement: send the command byte; if that fails, stop;
      otherwise wait, clear the response and read it up to four times.
     */
    method PerformMeasurement(cmdId: bv8, rspLen: nat, delay: nat) returns (r: ReturnCode)
      requires Valid() && 1 <= rspLen <= MAX_RSP_LENGTH
      modifies this`calls, this`log, cmdBuffer, rspBuffer
      ensures cmdBuffer[..] == old(cmdBuffer[..])[0 := cmdId]
      ensures var sent := old(log) + [Written(addr, [cmdId])];
        if bus(old(calls)).code != WrapperOk then
          r == I2cError && calls == old(calls) + 1 && log == sent && unchanged(rspBuffer)
        else
          var k := Attempts(bus, old(calls) + 1, MAX_READ_VAL_ATTEMPTS);
          var last := bus(old(calls) + k);
          && calls == old(calls) + 1 + k
          && r == WrapperResult(last.code)
          && log == sent + [Delayed(delay)] + ReadRequests(addr, rspLen, k)
          && rspBuffer[..] == if r == Ok then Delivered(Zeroed(old(rspBuffer[..]), rspLen), last.bytes, rspLen)
                              else Zeroed(old(rspBuffer[..]), rspLen)
    {
      r := SendCommandByte(cmdId);
      if r == Ok {
        r := AwaitResponse(rspLen, delay);
      }
    }

    /** `_Si7021.cmd_buffer[0] = cmd; Si7021_Write(_Si7021.cmd_buffer, 1)`. */
    method SendCommandByte(cmd: bv8) returns (r: ReturnCode)
      requires Valid()
      modifies this`calls, this`log, cmdBuffer
      ensures cmdBuffer[..] == old(cmdBuffer[..])[0 := cmd]
      ensures calls == old(calls) + 1 && r == WrapperResult(bus(old(calls)).code)
      ensures log == old(log) + [Written(addr, [cmd])]
    {
      cmdBuffer[0] := cmd;
      assert cmdBuffer[..1] == [cmd];
      r := Write(1);
    }

    /** The part of Si7021_PerformMeasurement after the command was sent. */
    method AwaitResponse(rspLen: nat, delay: nat) returns (r: ReturnCode)
      requires Valid() && 1 <= rspLen <= MAX_RSP_LENGTH
      modifies this`calls, this`log, rspBuffer
      ensures var k := Attempts(bus, old(calls), MAX_READ_VAL_ATTEMPTS);
        var last := bus(old(calls) + k - 1);
        && calls == old(calls) + k
        && r == WrapperResult(last.code)
        && log == old(log) + [Delayed(delay)] + ReadRequests(addr, rspLen, k)
        && rspBuffer[..] == if r == Ok then Delivered(Zeroed(old(rspBuffer[..]), rspLen), last.bytes, rspLen)
                            else Zeroed(old(rspBuffer[..]), rspLen)
    {
      log := log + [Delayed(delay)];
      ClearResponse(rspLen);
      r := ReadWithRetries(rspLen);
    }

    /**
      The do-while loop of Si7021_PerformMeasurement: read the response until
      a read succeeds or MAX_READ_VAL_ATTEMPTS reads have been made.
     */
    method ReadWithRetries(rspLen: nat) returns (r: ReturnCode)
      requires Valid() && 1 <= rspLen <= MAX_RSP_LENGTH
      modifies this`calls, this`log, rspBuffer
      ensures var k := Attempts(bus, old(calls), MAX_READ_VAL_ATTEMPTS);
        var last := bus(old(calls) + k - 1);
        && calls == old(calls) + k
        && r == WrapperResult(last.code)
        && log == old(log) + ReadRequests(addr, rspLen, k)
        && rspBuffer[..] == if r == Ok then Delivered(old(rspBuffer[..]), last.bytes, rspLen) else old(rspBuffer[..])
    {
      ghost var n0, log0, buf0 := calls, log, rspBuffer[..];
      var readAttempts := 0;
      r := Read(rspLen);
      while r != Ok && readAttempts < MAX_READ_VAL_ATTEMPTS - 1
        invariant Valid() && readAttempts < MAX_READ_VAL_ATTEMPTS
        invariant calls == n0 + readAttempts + 1
        invariant forall j :: n0 <= j < n0 + readAttempts ==> bus(j).code != WrapperOk
        invariant r == WrapperResult(bus(n0 + readAttempts).code)
        invariant log == log0 + ReadRequests(addr, rspLen, readAttempts + 1)
        invariant rspBuffer[..] == if r == Ok then Delivered(buf0, bus(n0 + readAttempts).bytes, rspLen) else buf0
        decreases MAX_READ_VAL_ATTEMPTS - readAttempts
      {
        readAttempts := readAttempts + 1;
        r := Read(rspLen);
      }
      ReadLoopCount(bus, n0, readAttempts, r == Ok);
    }

    /**
      Si7021_ReadTemperature without the float conversion: `code` is the
      temperature code that Si7021_ConvertTemp is given, present exactly when
      the measurement succeeded and its checksum matched.  `outPresent` is
      false for a null output pointer.
     */
    method ReadTemperature(outPresent: bool) returns (r: ReturnCode, code: Option<bv16>)
      requires Valid()
      modifies this`calls, this`log, cmdBuffer, rspBuffer
      ensures !outPresent ==> r == InvalidInputData && code == None && calls == old(calls) && log == old(log)
                              && unchanged(cmdBuffer) && unchanged(rspBuffer)
      ensures outPresent ==> MeasuredAs(r, code, old(calls), old(log), MEASTEMP_NOHOLD_CMD, MEASTEMP_DELAY)
      ensures outPresent ==> BuffersAfterMeasurement(old(calls), old(cmdBuffer[..]), old(rspBuffer[..]), MEASTEMP_NOHOLD_CMD)
    {
      if !outPresent {
        return InvalidInputData, None;
      }
      r, code := MeasureCode(MEASTEMP_NOHOLD_CMD, MEASTEMP_DELAY);
    }

    /** Si7021_ReadHumidity without the float conversion; `code` is what Si7021_ConvertHumidity is given. */
    method ReadHumidity(outPresent: bool) returns (r: ReturnCode, code: Option<bv16>)
      requires Valid()
      modifies this`calls, this`log, cmdBuffer, rspBuffer
      ensures !outPresent ==> r == InvalidInputData && code == None && calls == old(calls) && log == old(log)
                              && unchanged(cmdBuffer) && unchanged(rspBuffer)
      ensures outPresent ==> MeasuredAs(r, code, old(calls), old(log), MEASRH_NOHOLD_CMD, MEASRH_DELAY)
      ensures outPresent ==> BuffersAfterMeasurement(old(calls), old(cmdBuffer[..]), old(rspBuffer[..]), MEASRH_NOHOLD_CMD)
    {
      if !outPresent {
        return InvalidInputData, None;
      }
      r, code := MeasureCode(MEASRH_NOHOLD_CMD, MEASRH_DELAY);
    }

    /**
      The part ReadTemperature and ReadHumidity share: a three-byte
      measurement, then the code assembled from the response and checked
      against its checksum byte.
     */
    method MeasureCode(cmdId: bv8, delay: nat) returns (r: ReturnCode, code: Option<bv16>)
      requires Valid()
      modifies this`calls, this`log, cmdBuffer, rspBuffer
      ensures MeasuredAs(r, code, old(calls), old(log), cmdId, delay)
      ensures BuffersAfterMeasurement(old(calls), old(cmdBuffer[..]), old(rspBuffer[..]), cmdId)
    {
      ghost var buf0 := rspBuffer[..];
      r := PerformMeasurement(cmdId, MAX_RSP_LENGTH, delay);
      code := None;
      if r == Ok {
        ZeroedThenDelivered(buf0, bus(calls - 1).bytes);
        code := DecodeMeasurement(rspBuffer[..]);
        if code.None? {
          r := ChecksumError;
        }
      }
    }

    /**
      The outcome of a three-byte measurement started at call `n0`: an I2C
      error if the command or every read failed; otherwise the code decoded
      from what the last read delivered, or a checksum error.
     */
    ghost predicate MeasuredAs(r: ReturnCode, code: Option<bv16>, n0: nat, log0: seq<Event>, cmdId: bv8, delay: nat)
      reads this
    {
      var sent := log0 + [Written(addr, [cmdId])];
      if bus(n0).code != WrapperOk then
        r == I2cError && code == None && calls == n0 + 1 && log == sent
      else
        var k := Attempts(bus, n0 + 1, MAX_READ_VAL_ATTEMPTS);
        var last := bus(n0 + k);
        && calls == n0 + 1 + k
        && log == sent + [Delayed(delay)] + ReadRequests(addr, MAX_RSP_LENGTH, k)
        && (last.code != WrapperOk ==> r == I2cError && code == None)
        && (last.code == WrapperOk ==> ResponseOutcome(r, code, last.bytes))
    }

    /**
      The buffers after a three-byte measurement started at call `n0` on
      buffers `cmd0` and `rsp0`: the command byte is stored in the command
      buffer; the response buffer is untouched if the command failed, and
      otherwise cleared and then filled by the last read if that read succeeded.
     */
    ghost predicate BuffersAfterMeasurement(n0: nat, cmd0: seq<bv8>, rsp0: seq<bv8>, cmdId: bv8)
      reads this, cmdBuffer, rspBuffer
    {
      && 0 < |cmd0| && cmdBuffer[..] == cmd0[0 := cmdId]
      && MAX_RSP_LENGTH <= |rsp0|
      && if bus(n0).code != WrapperOk then
           rspBuffer[..] == rsp0
         else
           var last := bus(n0 + Attempts(bus, n0 + 1, MAX_READ_VAL_ATTEMPTS));
           rspBuffer[..] == if last.code == WrapperOk then Delivered(Zeroed(rsp0, MAX_RSP_LENGTH), last.bytes, MAX_RSP_LENGTH)
                            else Zeroed(rsp0, MAX_RSP_LENGTH)
    }

    /**
      Si7021_ReadRevision: `revision` is what is stored through the output
      pointer, present only when the read succeeded.
     */
    method ReadRevision(outPresent: bool) returns (r: ReturnCode, revision: Option<FirmwareRevision>)
      requires Valid()
      modifies this`calls, this`log, cmdBuffer, rspBuffer
      ensures !outPresent ==> r == InvalidInputData && revision == None && calls == old(calls) && log == old(log)
                              && unchanged(cmdBuffer) && unchanged(rspBuffer)
      ensures outPresent ==>
        && cmdBuffer[..] == [0x84, 0xB8]
        && var sent := old(log) + [Written(addr, [0x84, 0xB8])];
        && var cleared := Zeroed(old(rspBuffer[..]), REVISION_RSP_LEN);
        if bus(old(calls)).code != WrapperOk then
          r == I2cError && revision == None && calls == old(calls) + 1 && log == sent && rspBuffer[..] == cleared
        else
          var answer := bus(old(calls) + 1);
          && calls == old(calls) + 2 && log == sent + [ReadRequested(addr, REVISION_RSP_LEN)]
          && r == WrapperResult(answer.code)
          && rspBuffer[..] == (if r == Ok then Delivered(cleared, answer.bytes, REVISION_RSP_LEN) else cleared)
          && revision == if r == Ok then Some(DecodeRevision(FirstByte(answer.bytes))) else None
    {
      if !outPresent {
        return InvalidInputData, None;
      }
      revision := None;
      ClearResponse(REVISION_RSP_LEN);
      cmdBuffer[0] := (REVISION_CMD >> 8) as bv8;
      cmdBuffer[1] := (REVISION_CMD & 0xFF) as bv8;
      RevisionCommandBytes();
      assert cmdBuffer[..2] == cmdBuffer[..] == [0x84, 0xB8];
      r := Write(2);
      if r != Ok {
        return;
      }
      r := Read(REVISION_RSP_LEN);
      if r == Ok {
        revision := Some(DecodeRevision(rspBuffer[0]));
      }
    }

    /**
      Si7021_Acquire: an address beyond the 7-bit range is refused before the
      mutex is touched; a taken mutex is reported; otherwise the address is
      stored and the reset command 0xFE is sent, followed by the 15 ms reset
      delay, and the mutex is given back if the reset failed.
     */
    method Acquire(i2cAddr: U16) returns (r: ReturnCode)
      requires Valid()
      modifies this`addr, this`mutexHeld, this`calls, this`log, cmdBuffer
      ensures i2cAddr > I2CLayout.ADDR_MAX_7BIT as int ==>
                r == InvalidInputData && addr == old(addr) && mutexHeld == old(mutexHeld)
                && calls == old(calls) && log == old(log) && unchanged(cmdBuffer)
      ensures i2cAddr <= I2CLayout.ADDR_MAX_7BIT as int && old(mutexHeld) ==>
                r == MutexUnavailable && addr == old(addr) && mutexHeld
                && calls == old(calls) && log == old(log) && unchanged(cmdBuffer)
      ensures i2cAddr <= I2CLayout.ADDR_MAX_7BIT as int && !old(mutexHeld) ==>
                && addr == i2cAddr && calls == old(calls) + 1
                && cmdBuffer[..] == old(cmdBuffer[..])[0 := RESET_CMD]
                && r == WrapperResult(bus(old(calls)).code)
                && log == old(log) + [MutexTaken, Written(i2cAddr, [RESET_CMD])]
                          + (if r == Ok then [Delayed(RESET_DELAY)] else [MutexGiven])
                && mutexHeld == (r == Ok)
    {
      if i2cAddr > I2CLayout.ADDR_MAX_7BIT as int {
        return InvalidInputData;
      }
      if mutexHeld {
        return MutexUnavailable;
      }
      mutexHeld := true;
      log := log + [MutexTaken];
      addr := i2cAddr;
      r := Reset();
      if r != Ok {
        mutexHeld := false;
        log := log + [MutexGiven];
      }
    }

    /** Si7021_Release: the mutex is given back, whether or not it was taken. */
    method Release()
      modifies this`mutexHeld, this`log
      ensures !mutexHeld && log == old(log) + [MutexGiven]
    {
      mutexHeld := false;
      log := log + [MutexGiven];
    }

    /** Si7021_Reset: the reset command, then the reset delay if it was sent. */
    method Reset() returns (r: ReturnCode)
      requires Valid()
      modifies this`calls, this`log, cmdBuffer
      ensures cmdBuffer[..] == old(cmdBuffer[..])[0 := RESET_CMD]
      ensures calls == old(calls) + 1 && r == WrapperResult(bus(old(calls)).code)
      ensures log == old(log) + [Written(addr, [RESET_CMD])] + (if r == Ok then [Delayed(RESET_DELAY)] else [])
    {
      r := SendCommandByte(RESET_CMD);
      if r == Ok {
        log := log + [Delayed(RESET_DELAY)];
      }
    }
  }

  /** The first byte of an answer, as it lands in an otherwise cleared buffer. */
  function FirstByte(bytes: seq<bv8>): bv8 {
    if |bytes| > 0 then bytes[0] else 0
  }

  /** A full-length read into a cleared buffer leaves the same bytes whatever the buffer held. */
  lemma ZeroedThenDelivered(buf: seq<bv8>, bytes: seq<bv8>)
    requires |buf| == MAX_RSP_LENGTH
    ensures Delivered(Zeroed(buf, MAX_RSP_LENGTH), bytes, MAX_RSP_LENGTH) == Delivered([0, 0, 0], bytes, MAX_RSP_LENGTH)
  {
  }

  /** What ReadTemperature and ReadHumidity return for the bytes a successful read delivered. */
  ghost predicate ResponseOutcome(r: ReturnCode, code: Option<bv16>, bytes: seq<bv8>) {
    var rsp := Delivered([0, 0, 0], bytes, MAX_RSP_LENGTH);
    && code == DecodeMeasurement(rsp)
    && r == (if code.None? then ChecksumError else Ok)
  }

  /** The loop's exit condition determines the number of reads as `Attempts` counts them. */
  lemma ReadLoopCount(bus: nat -> Answer, n0: nat, attempts: nat, succeeded: bool)
    requires attempts < MAX_READ_VAL_ATTEMPTS
    requires forall j :: n0 <= j < n0 + attempts ==> bus(j).code != WrapperOk
    requires succeeded == (bus(n0 + attempts).code == WrapperOk)
    requires succeeded || attempts == MAX_READ_VAL_ATTEMPTS - 1
    ensures Attempts(bus, n0, MAX_READ_VAL_ATTEMPTS) == attempts + 1
  {
    AttemptsExact(bus, n0, MAX_READ_VAL_ATTEMPTS, attempts);
  }

  /** `Attempts` is the position of the first success, or all the attempts. */
  lemma {:induction false} AttemptsExact(bus: nat -> Answer, n: nat, left: nat, a: nat)
    requires 1 <= left && a < left
    requires forall j :: n <= j < n + a ==> bus(j).code != WrapperOk
    requires bus(n + a).code == WrapperOk || a == left - 1
    ensures Attempts(bus, n, left) == a + 1
    decreases left
  {
    if a > 0 {
      assert bus(n).code != WrapperOk;
      AttemptsExact(bus, n + 1, left - 1, a - 1);
    }
  }
}
