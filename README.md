# I2C controller HAL and Si7021 sensor driver, modelled in Dafny

This project models two layers of an embedded firmware.

**The I2C hardware abstraction layer** (`hal/src/I2C.c`, `hal/include/I2C.h`):
- the controller's memory-mapped register block, with its bit fields: IdRev, Cfg, IntEn, Status, Addr, Data, Ctrl, Cmd, Setup and TPM;
- the HAL's static state: `i2c_config` and `current_transaction`;
- the operations I2C_Create, I2C_GetConfig, I2C_SetupController, I2C_ShutdownController, I2C_LaunchTransaction, I2C_DMACCallback and I2C_DeviceIrqHandler;
- the static helpers behind them: the FIFO fill and drain loops, SetupDataPath, the enable and disable helpers and ReadHWConfig.

**The Si7021 temperature and humidity sensor driver** (`src/Si7021.c`):
- the CRC-8 that guards measurements;
- the decoding of measurement and revision responses;
- the bounded read-retry loop of Si7021_PerformMeasurement;
- Si7021_Reset, Si7021_Acquire and Si7021_Release;
- Si7021_ReadRevision, Si7021_ReadTemperature and Si7021_ReadHumidity.

Modules:
- `I2CLayout` (`i2c_layout.dfy`) holds the register layout of `I2C.h`: masks, offsets, enumerations and return codes, and the bit-field helpers `w &= ~m`, `w |= m` and `(v << off) & mask`.
- `I2CHal` (`i2c_hal.dfy`) holds the HAL in two classes:
  - `Registers` is the register block. Its one field `regs` is a value copy of every register. The Data register is a FIFO `seq<bv8>`. The FIFOFULL and FIFOEMPTY Status bits are derived from the FIFO's occupancy.
  - `Hal` holds the HAL's statics, plus a `trace` of the calls made to the DMA controller, the external interrupt controller and the transaction callback. `i2c_config` is an object of class `ConfigStore`, because I2C_GetConfig hands out a pointer to it.

  Every operation's effect is specified by a function on register values: `Fill`, `Drain`, `DataPathEffect`, `Configured`, `Programmed`, `Launched` and `Dispatch`. The properties are proved about those functions.
- `Si7021` (`si7021.dfy`) holds the driver. It has:
  - the CRC as a recursive function and as the C loop;
  - the decoders;
  - the class `Driver` for the driver's static `_Si7021`: address, command and response buffers, and the mutex held as a flag.

  The I2C wrapper is an oracle `bus: nat -> Answer`: `bus(n)` is the return code and bytes of the driver's n-th wrapper call. Delays, mutex operations and transfers are recorded in a `log`.

Two behaviours of the code are modelled as written:
- ReadHWConfig computes the FIFO size as `0x02 << code`. So FIFOSIZE codes 0..3 give 2, 4, 8 and 16 bytes.
- In I2C_LaunchTransaction, `ret = SetupDataPath(i2c_dev) != I2C_OK` stores the comparison, which is 0 or 1. So a failed DMA setup is reported as `I2C_INVALID_INPUT_DATA` (code 1), not as `I2C_DMAC_ERROR`. `I2CHal.LaunchReportsDataPath` proves this behaviour.

## Model

| member | source | states |
|---|---|---|
| I2CLayout.ClearBitsClears | hal/src/I2C.c:151 | `w &= ~m` leaves no bit of `m` set |
| I2CLayout.ClearBitsKeepsOthers | hal/src/I2C.c:151 | `w &= ~m` leaves every bit outside `m` as it was |
| I2CLayout.SetBitsSets | hal/src/I2C.c:187 | `w \|= m` with a non-zero `m` leaves every bit of `m` set (so some bit of it is set) |
| I2CLayout.SetBitsKeepsOthers | hal/src/I2C.c:187 | `w \|= m` leaves every bit outside `m` as it was |
| I2CLayout.FifoDepth | hal/src/I2C.c:86-96 | the FIFO depth computed from a FIFOSIZE code is 2, 4, 8 or 16 |
| I2CLayout.FromCode | hal/include/I2C.h:170-178 | the enumerator an in-range integer denotes has that integer as its C value |
| I2CLayout.ReturnCodeRoundTrip | hal/include/I2C.h:170-178 | every return code's C value is below I2C_NB_OF_RETURN_CODES, and converting back gives the same code |
| I2CLayout.SetupMasksAreFields | hal/include/I2C.h:123-140 | each Setup mask is the contiguous field of its width at its offset |
| I2CLayout.SetupFieldsDisjoint | hal/include/I2C.h:123-140 | the nine Setup fields are pairwise disjoint |
| I2CLayout.CtrlFieldsDisjoint | hal/include/I2C.h:98-109 | the Ctrl fields are contiguous at their offsets and pairwise disjoint |
| I2CLayout.StatusBitsDistinct | hal/include/I2C.h:58-87 | CMPL, ADDRHIT, FIFOFULL and FIFOEMPTY are distinct single bits |
| I2CLayout.AddressLimitsFitField | hal/include/I2C.h:89-93 | the 7-bit limit is below the 10-bit limit, and the ADDR field is exactly ten bits wide |
| I2CLayout.AddressWrittenUntruncated | hal/src/I2C.c:366 | an address within the 10-bit limit passes `(a << 0) & ADDR_MASK` unchanged |
| I2CLayout.DataCountEncoding | hal/include/I2C.h:98-109 | DATACNT is eight bits: counts below 256 are kept and the maximum count, 256, encodes as 0 |
| I2CLayout.CommandCodesFit | hal/include/I2C.h:111-121 | the CMD field is three bits wide and every command code fits in it; NO_ACTION reads as not pending and each of the other five commands as pending; a Cmd word reads as not pending exactly when its CMD field holds NO_ACTION |
| I2CLayout.FifoSizeCodes | hal/include/I2C.h:29-35 | the FIFOSIZE field is two bits wide, and codes 0..3 denote depths 2, 4, 8 and 16 |
| I2CLayout.EnumValues | hal/include/I2C.h:170-204 | the modes, directions, roles, addressing modes and return codes carry their C values |
| I2CHal.CapacityIsFifoDepth | hal/src/I2C.c:86-96 | the FIFO capacity the hardware enforces is the depth the HAL computes |
| I2CHal.WithOccupancyFull | hal/src/I2C.c:123-126 | the FIFOFULL bit of the occupancy-driven Status word is the `full` flag |
| I2CHal.WithOccupancyEmpty | hal/src/I2C.c:118-121 | the FIFOEMPTY bit of the occupancy-driven Status word is the `empty` flag |
| I2CHal.WithOccupancyKeepsOthers | hal/include/I2C.h:58-87 | the occupancy bits do not touch any other Status bit |
| I2CHal.FifoFullIffAtCapacity | hal/src/I2C.c:123-126 | FifoFull holds exactly when the FIFO holds its depth |
| I2CHal.FifoEmptyIffNoBytes | hal/src/I2C.c:118-121 | FifoEmpty holds exactly when the FIFO holds no byte |
| I2CHal.StatusKeepsOtherBits | hal/include/I2C.h:58-87 | Status as read keeps every bit other than FIFOFULL and FIFOEMPTY from the register |
| I2CHal.FifoFlagsReflectOccupancy | hal/src/I2C.c:118-126 | both FIFO flags follow the occupancy exactly, and the other Status bits are the register's |
| I2CHal.EnableSetsIicen | hal/src/I2C.c:103-106 | I2CEnable sets IICEN |
| I2CHal.EnableKeepsOthers | hal/src/I2C.c:103-106 | I2CEnable changes no other Setup bit |
| I2CHal.EnableOfEnabled | hal/src/I2C.c:103-106 | enabling an enabled controller changes nothing |
| I2CHal.DisableClearsIicen | hal/src/I2C.c:108-111 | I2CDisable clears IICEN |
| I2CHal.DisableKeepsOthers | hal/src/I2C.c:108-111 | I2CDisable changes no other Setup bit |
| I2CHal.DisableUndoesEnable | hal/src/I2C.c:103-111 | disabling after enabling restores a disabled Setup word |
| I2CHal.DmaDisabledClearsDmaen | hal/src/I2C.c:173 | "Disable DMA" clears DMAEN |
| I2CHal.DmaEnabledSetsDmaen | hal/src/I2C.c:242 | "Enable I2C DMA" sets DMAEN |
| I2CHal.DmaDisabledKeepsOthers | hal/src/I2C.c:173 | "Disable DMA" changes no other Setup bit |
| I2CHal.DmaEnabledKeepsOthers | hal/src/I2C.c:242 | "Enable I2C DMA" changes no other Setup bit |
| I2CHal.FifoIntsDisabledClearsEmpty | hal/src/I2C.c:176 | "Disable fifo interrupts" clears the FIFOEMPTY enable |
| I2CHal.FifoIntsDisabledClearsFull | hal/src/I2C.c:177 | "Disable fifo interrupts" clears the FIFOFULL enable |
| I2CHal.FifoIntsDisabledKeepsOthers | hal/src/I2C.c:176-177 | "Disable fifo interrupts" changes no other enable |
| I2CHal.ClearedWhenReads | hal/src/I2C.c:150-152 | after a fill or drain, the interrupt enable is set exactly when it was set before and bytes remain |
| I2CHal.ClearedWhenKeepsOthers | hal/src/I2C.c:164-166 | the closing step of a fill or drain changes no other enable |
| I2CHal.Registers.constructor | hal/include/I2C.h:145-157 | the register block out of reset: IdRev and Cfg as given, all else 0, FIFO empty |
| I2CHal.Registers.WriteData | hal/src/I2C.c:145 | a write to Data appends the byte to the back of the FIFO and changes nothing else |
| I2CHal.Registers.ReadData | hal/src/I2C.c:159 | a read of Data returns the oldest byte and then removes it |
| I2CHal.HwConfigSplitsIdRev | hal/src/I2C.c:86-96 | ID, major and minor are a lossless split of IdRev: packing them back gives the register |
| I2CHal.HwConfigFifoSize | hal/src/I2C.c:86-96 | the stored FIFO size is 2, 4, 8 or 16 for codes 0..3, and depends on no other Cfg bit |
| I2CHal.HwConfigOfTestFixture | hal/cpputest/tests/I2CTests.cpp:239-251 | the fixture's IdRev and Cfg values decode as major 0xA, minor 0xB and a 16-byte FIFO |
| I2CHal.ChannelConfigMirrorsWithDirection | hal/src/I2C.c:194-212 | the RX channel is the TX channel with source and destination exchanged; the controller side handshakes and stays fixed, the memory side increments |
| I2CHal.TransferConfigFollowsTransaction | hal/src/I2C.c:222-231 | the DMA transfer moves every remaining byte between the buffer and Data, in the transaction's direction |
| I2CHal.Pending | hal/src/I2C.c:59-72 | the pending bytes are exactly `remaining` many |
| I2CHal.Window | hal/src/I2C.c:145 | the window taken from the buffer has the requested length |
| I2CHal.PushBytes | hal/src/I2C.c:143-148 | the write loop appends the pending bytes to the FIFO in order, and stops only when FIFOFULL is set or all are sent |
| I2CHal.PopBytes | hal/src/I2C.c:157-162 | the read loop stores the oldest FIFO bytes in order at the cursor, and stops only when FIFOEMPTY is set or the count is read |
| I2CHal.FillMovesBytesInOrder | hal/src/I2C.c:141-153 | a fill moves the first pending bytes, in order, to the back of the FIFO; it stops only when full or done, and advances the cursor by what it moved |
| I2CHal.FillStopsWhenFull | hal/src/I2C.c:143-144 | a fill ends with FIFOFULL set unless no bytes remain |
| I2CHal.FillKeepsRefillInterrupt | hal/src/I2C.c:150-152 | after a fill, FIFOEMPTY is enabled exactly when it was enabled before and bytes remain |
| I2CHal.FillDeterminedByOutcome | hal/src/I2C.c:141-153 | any byte count that satisfies the loop's exit condition yields the fill's result |
| I2CHal.DrainMovesBytesInOrder | hal/src/I2C.c:155-167 | a drain reads the oldest FIFO bytes, in order; it stops only when empty or done, and advances the cursor by what it read |
| I2CHal.DrainDeterminedByOutcome | hal/src/I2C.c:155-167 | any byte count that satisfies the loop's exit condition yields the drain's result |
| I2CHal.DrainStopsWhenEmpty | hal/src/I2C.c:157-158 | a drain ends with FIFOEMPTY set unless every requested byte was read |
| I2CHal.DrainKeepsCollectInterrupt | hal/src/I2C.c:164-166 | after a drain, FIFOFULL is enabled exactly when it was enabled before and bytes remain |
| I2CHal.FillThenDrainReturnsBytes | hal/src/I2C.c:141-167 | draining after filling an empty FIFO gives back the bytes filled (first in, first out) |
| I2CHal.DataPathScan | hal/src/I2C.c:171-179 | with nothing to move, DMA and both FIFO interrupts are turned off and no collaborator is called |
| I2CHal.DataPathFifoTx | hal/src/I2C.c:181-188 | a FIFO transmit turns DMA off, enables FIFOEMPTY and primes the FIFO with a fill |
| I2CHal.DataPathFifoTxRefill | hal/src/I2C.c:186-188 | after a FIFO transmit, FIFOEMPTY is enabled exactly when bytes are still to be sent |
| I2CHal.DataPathFifoTxBounded | hal/src/I2C.c:181-191 | the FIFO transmit path keeps within the bounds every data path respects |
| I2CHal.DataPathFifoRx | hal/src/I2C.c:189-191 | a FIFO receive turns DMA off and enables FIFOFULL; it reads nothing and leaves the cursor |
| I2CHal.DataPathFifoRxBounded | hal/src/I2C.c:181-191 | the FIFO receive path keeps within the same bounds |
| I2CHal.DataPathDma | hal/src/I2C.c:192-243 | SetupChannel, SetupTransfer and EnableChannel run in order, and the first failure returns DMAC_ERROR with the registers untouched; on success the FIFO interrupts go off and DMAEN on |
| I2CHal.DataPathDmaBounded | hal/src/I2C.c:192-243 | the DMA path keeps within the same bounds |
| I2CHal.DataPathOutcome | hal/src/I2C.c:169-245 | every data path fails, returning DMAC_ERROR, exactly when a DMA controller call fails, and then changes nothing; it writes only DMAEN, IntEn, the FIFO and the cursor and count; it keeps the FIFO within its depth; after success DMAEN is set exactly for a DMA transfer of at least one byte |
| I2CHal.ConfiguredTpmKeepsRegister | hal/src/I2C.c:288 | OR-ing a multiplier of 0 into TPM leaves the register as it was |
| I2CHal.ConfiguredSetupRole | hal/src/I2C.c:284-312 | after setup, MASTER holds the requested role and the controller is enabled |
| I2CHal.ConfiguredSetupPhases | hal/src/I2C.c:291-303 | after setup of a supported mode, T_SP is 2 and T_SUDAT and T_HDDAT hold the mode's table values |
| I2CHal.ConfiguredSetupClock | hal/src/I2C.c:305-310 | after setup, T_SCLHI and T_SCLRATIO hold the mode's table values |
| I2CHal.ConfiguredSetupKeepsOthers | hal/src/I2C.c:275-315 | after setup, DMAEN, ADDRESSING and the unused Setup bits are as before |
| I2CHal.ConfiguredSetupReadsBack | hal/src/I2C.c:275-315 | every programmed field reads back, T_SP is set, the controller is enabled and nothing else changes |
| I2CHal.ProgrammedTimingMeetsBusLimits | hal/cpputest/tests/I2CTests.cpp:253-315 | for each supported mode, the programmed fields give spike width, setup, hold and SCL periods within the bus limits the tests check |
| I2CHal.RejectedIffNotAcceptable | hal/src/I2C.c:332-344 | the six rejection clauses reject exactly the descriptors that are not acceptable |
| I2CHal.RecordedRoleIsConfigured | hal/src/I2C.c:354-362 | the role recorded for a transaction is the one setup programmed |
| I2CHal.AddressReadsBack | hal/src/I2C.c:364-366 | ADDR reads back the address, untruncated |
| I2CHal.AddressKeepsOthers | hal/src/I2C.c:364-366 | no other Addr bit changes |
| I2CHal.AddressingReadsBack | hal/src/I2C.c:368-370 | ADDRESSING reads back the addressing mode |
| I2CHal.AddressingKeepsOthers | hal/src/I2C.c:368-370 | no other Setup bit changes |
| I2CHal.CtrlPhases | hal/src/I2C.c:372-380 | START, ADDR and STOP are always requested |
| I2CHal.CtrlDataPhase | hal/src/I2C.c:374-378 | the DATA phase is requested exactly when there is a buffer |
| I2CHal.CtrlDirReadsBack | hal/src/I2C.c:382-384 | DIR reads back the direction |
| I2CHal.CtrlCountReadsBack | hal/src/I2C.c:386-388 | DATACNT reads back counts below 256, and reads 256 as 0 |
| I2CHal.CtrlKeepsOthers | hal/src/I2C.c:372-388 | no unprogrammed Ctrl bit changes |
| I2CHal.ProgrammedCtrlReadsBack | hal/src/I2C.c:372-388 | the Ctrl word of a launch has its phases, direction and count, and keeps every other bit |
| I2CHal.ProgrammedFieldsReadBack | hal/src/I2C.c:364-388 | for an accepted descriptor, Addr, Setup and Ctrl read back what was programmed, and no other register changes |
| I2CHal.IssuedIsPending | hal/src/I2C.c:396-397 | an issued command reads as pending |
| I2CHal.DescriptorBytes | hal/src/I2C.c:354-362 | the bytes an accepted descriptor hands over are exactly `data_count` many |
| I2CHal.LaunchReportsDataPath | hal/src/I2C.c:390-399 | a launch returns OK exactly when its data path does; a DMA failure is reported as INVALID_INPUT_DATA, and then no command is issued; only a success enables the interrupt |
| I2CHal.LaunchIssuesCommand | hal/src/I2C.c:394-397 | a successful launch leaves a command pending and the CMPL interrupt enabled |
| I2CHal.DispatchPriority | hal/src/I2C.c:409-442 | CMPL takes priority, and its outcome is OK exactly when ADDRHIT is set; it drains first only for a successful FIFO receive; FIFOEMPTY refills only a TX and FIFOFULL collects only an RX |
| I2CHal.SetAddress | hal/src/I2C.c:364-370 | the Addr and Setup words after the address and addressing writes |
| I2CHal.RequestPhases | hal/src/I2C.c:372-380 | the Ctrl word after the phase writes |
| I2CHal.SetDirectionAndCount | hal/src/I2C.c:382-388 | the Ctrl word after the direction and count writes |
| I2CHal.ProgramTransfer | hal/src/I2C.c:364-388 | the registers after all programming writes are `Programmed(old, d)` |
| I2CHal.IssueTransaction | hal/src/I2C.c:394-397 | CMPL is enabled and the ISSUE_TRANSACTION command is written; nothing else changes |
| I2CHal.ConfigStore.constructor | hal/src/I2C.c:59-72 | the static `i2c_config` starts zeroed |
| I2CHal.Hal.constructor | hal/src/I2C.c:59-72 | the statics start zeroed and idle, with a fresh `i2c_config` object and an empty trace |
| I2CHal.Hal.ReadHWConfig | hal/src/I2C.c:86-96 | the contents of the `i2c_config` object become the ID, revision and FIFO size decoded from IdRev and Cfg |
| I2CHal.Hal.Create | hal/src/I2C.c:255-262 | a null device is refused and changes nothing; any other device reads the hardware config and returns OK |
| I2CHal.Hal.GetConfig | hal/src/I2C.c:264-273 | returns OK exactly when both pointers are present; it then hands out the reference to the one `i2c_config` object, and a refusal hands out null |
| I2CHal.Hal.GetConfigThenCreate | hal/src/I2C.c:255-273 | a reference handed out by I2C_GetConfig shows the configuration a later I2C_Create reads |
| I2CHal.Hal.SetupController | hal/src/I2C.c:275-315 | returns OK exactly for a device, a setup and a supported mode; a refusal changes nothing; success leaves `Configured(old, setup)` |
| I2CHal.Hal.ShutdownController | hal/src/I2C.c:317-325 | a null device is refused; otherwise the interrupt is disabled and IICEN alone is cleared |
| I2CHal.Hal.WriteAvailableData | hal/src/I2C.c:141-153 | registers and transaction become the fill's result |
| I2CHal.Hal.ReadAvailableData | hal/src/I2C.c:155-167 | registers and transaction become the drain's result, and the bytes read are stored at the old cursor |
| I2CHal.Hal.EnableInterrupt | hal/src/I2C.c:128-133 | the external interrupt source is enabled at the given priority |
| I2CHal.Hal.SetupDataPath | hal/src/I2C.c:169-245 | registers, transaction, trace and result are `DataPathEffect` of the old state and the DMA controller's replies |
| I2CHal.Hal.DmacCallback | hal/src/I2C.c:247-253 | anything but terminal count calls an installed callback with DMAC_ERROR; otherwise nothing is called |
| I2CHal.Hal.LaunchTransaction | hal/src/I2C.c:327-402 | validation, then the enable check, then the pending check, each rejection changing nothing; an accepted launch leaves `Launched(old, d)` |
| I2CHal.Hal.Launch | hal/src/I2C.c:354-402 | the accepted launch: record, program, data path, then issue and enable only when the data path succeeded |
| I2CHal.Hal.DeviceIrqHandler | hal/src/I2C.c:409-442 | a null device is refused; otherwise the `Dispatch` outcome: complete (with an optional drain, then the acknowledgement and callback), refill, collect or nothing |
| Si7021.RevisionCommandBytes | src/Si7021.c:264-265 | the two command bytes are 0x84 and 0xB8, the halves of the revision command, high byte first |
| Si7021.Feedback | src/Si7021.c:64-65 | the feedback term is 0 or the low 16 bits of the polynomial |
| Si7021.RoundWhenHighBitSet | src/Si7021.c:64-65 | the C round with bit 15 set, promoted and truncated, is `CrcRound` |
| Si7021.RoundWhenHighBitClear | src/Si7021.c:66-67 | the C round with bit 15 clear, truncated, is `CrcRound` |
| Si7021.ComputeCrc8 | src/Si7021.c:61-71 | the sixteen-iteration loop returns `Crc8(data)` |
| Si7021.CrcRoundsAdd | src/Si7021.c:63 | m rounds followed by n rounds are m + n rounds |
| Si7021.CrcRoundLinear | src/Si7021.c:63-69 | one round is linear over XOR |
| Si7021.CrcRoundsLinear | src/Si7021.c:63-69 | any number of rounds is linear over XOR |
| Si7021.Crc8Linear | src/Si7021.c:61-71 | the checksum of `a ^ b` is the XOR of the two checksums |
| Si7021.CrcFirstTestVector | cpputest/tests/Si7021Tests.cpp:129-145 | the checksum of 0x65CC is 0x18 and not 0x17 |
| Si7021.CrcSecondTestVector | cpputest/tests/Si7021Tests.cpp:129-145 | the checksum of 0x7D52 is 0x67 and not 0x68 |
| Si7021.CrcRoundsFromOne | src/Si7021.c:61-71 | from 1 the rounds walk the bit up to bit 15, then keep the low byte clear |
| Si7021.LowBitChecksumNonZero | src/Si7021.c:61-71 | a code with a single bit set in its low byte has a non-zero checksum |
| Si7021.HighBitChecksumNonZero | src/Si7021.c:61-71 | a code with a single bit set in its high byte has a non-zero checksum |
| Si7021.SingleBitChecksumNonZero | src/Si7021.c:61-71 | no single-bit code has a zero checksum |
| Si7021.SingleBitErrorChangesChecksum | src/Si7021.c:61-71 | flipping any one bit of a code changes its checksum |
| Si7021.Encoded | src/Si7021.c:308-309 | the sensor's encoding of a code is three bytes |
| Si7021.MeasurementCodeOfHalves | src/Si7021.c:308 | assembling the MSB and LSB of a code gives the code back |
| Si7021.MeasurementCodeHalves | src/Si7021.c:308 | splitting an assembled code gives its two bytes back |
| Si7021.DecodeAcceptsExactlyEncodings | src/Si7021.c:308-311 | a response is accepted exactly when it is the encoding of its own code |
| Si7021.DecodeEncoded | src/Si7021.c:308-311 | decoding the encoding of a code returns that code |
| Si7021.SingleBitCorruptionDetected | src/Si7021.c:308-311 | a response with one bit flipped in its MSB or LSB is a checksum error |
| Si7021.MeasurementTestVectors | cpputest/tests/Si7021Tests.cpp:129-145 | the test responses with the right checksum decode to their codes, and the others are rejected |
| Si7021.DecodeRevision | src/Si7021.c:276-288 | the result is revision 2 exactly for 0x20, revision 1 exactly for 0xFF, and unknown otherwise |
| Si7021.DecodeRevisionByte | cpputest/tests/Si7021Tests.cpp:118-125 | the known revisions round-trip through their byte, and 0x30 is unknown |
| Si7021.WrapperResult | src/Si7021.c:101-104 | OK exactly for a wrapper OK; every wrapper failure becomes I2C_ERROR |
| Si7021.Zeroed | src/Si7021.c:148-150 | the clearing loop makes the first `len` bytes zero and keeps the rest |
| Si7021.Attempts | src/Si7021.c:151-155 | the loop makes between one read and the maximum number of attempts |
| Si7021.AttemptsStopAtFirstSuccess | src/Si7021.c:151-155 | every read before the last one failed, and the loop stops early only on a success |
| Si7021.ReadRequests | src/Si7021.c:152-154 | k retries log k identical read requests |
| Si7021.AttemptsFirstSuccess | src/Si7021.c:155 | a first success stops at once, and a failure with attempts left makes one more read |
| Si7021.AllFailuresUseAllAttempts | src/Si7021.c:155 | when every read fails, exactly MAX_READ_VAL_ATTEMPTS reads are made |
| Si7021.ReadLoopCount | src/Si7021.c:151-155 | the loop's exit condition fixes the number of reads at `Attempts` |
| Si7021.AttemptsExact | src/Si7021.c:151-155 | `Attempts` is the position of the first success, or all the attempts |
| Si7021.ZeroedThenDelivered | src/Si7021.c:148-154 | a full-length read into a cleared buffer leaves the same bytes whatever the buffer held |
| Si7021.Driver.constructor | src/Si7021.c:33-45 | the driver state starts with the buffers allocated, address 0, mutex free and nothing done |
| Si7021.Driver.Write | src/Si7021.c:94-106 | one TX transaction of the first `len` command bytes to the stored address; the result maps the wrapper's answer |
| Si7021.Driver.Read | src/Si7021.c:108-120 | one RX transaction of `len` bytes; on success the sensor's bytes land in the buffer, on failure the buffer is unchanged |
| Si7021.Driver.ClearResponse | src/Si7021.c:148-150 | the first `len` response bytes become 0 and the rest are kept |
| Si7021.Driver.PerformMeasurement | src/Si7021.c:134-158 | a failed command write stops at once; otherwise one delay, a cleared response and `Attempts` reads, with the last read's result and bytes |
| Si7021.Driver.SendCommandByte | src/Si7021.c:140-145 | the command byte is stored in the command buffer and written as a one-byte transaction |
| Si7021.Driver.AwaitResponse | src/Si7021.c:147-157 | one delay, then a cleared response, then `Attempts` reads |
| Si7021.Driver.ReadWithRetries | src/Si7021.c:151-155 | reads until one succeeds or MAX_READ_VAL_ATTEMPTS are made; the count is `Attempts`, and the result and buffer come from the last read |
| Si7021.Driver.ReadTemperature | src/Si7021.c:292-319 | a null output is refused and nothing is done; otherwise a temperature measurement whose code is present only when the read succeeded and the checksum matched; the command byte is left in the command buffer and the response buffer is cleared and filled by the last successful read |
| Si7021.Driver.ReadHumidity | src/Si7021.c:321-348 | the same for humidity, with its command and delay, including what is left in both buffers |
| Si7021.Driver.MeasureCode | src/Si7021.c:298-316 | the measurement outcome: I2C_ERROR on a failed write or failed reads, otherwise the decoded code or CHECKSUM_ERROR; the command buffer holds the command byte; the response buffer is untouched after a failed write, otherwise cleared and then filled by the last read if it succeeded |
| Si7021.Driver.ReadRevision | src/Si7021.c:252-290 | a null output is refused; otherwise the cleared response, the 0x84 0xB8 write and, if it succeeded, a two-byte read decoded when OK |
| Si7021.Driver.Acquire | src/Si7021.c:226-245 | an address above 0x7F is refused before the mutex is touched; a held mutex is reported; otherwise the address is stored, a reset is sent, and the mutex is given back if the reset failed |
| Si7021.Driver.Release | src/Si7021.c:247-250 | the mutex is given back |
| Si7021.Driver.Reset | src/Si7021.c:122-132 | the reset command is written, then the reset delay follows only when the write succeeded |

## Left out

- The register block is one value field of class `Registers`. Each register write is a field update of that value, not a volatile memory access. Hardware side effects other than the Data FIFO are not modelled.
- `Status |= CMPL`, the write-one-to-clear acknowledgement in I2C_DeviceIrqHandler, is recorded as the trace event `CmplAcknowledged`. The model does not change the Status value for it.
- The DMA controller (`DMAC.h`) is not part of this model. Its answers are the parameter `DmacReplies`. The value of `DMAC_CHANNEL_I2C` is an unspecified constant.
- The external interrupt controller and the transaction callback are trace events. ExternalInterrupts_I2cIrqHandler only forwards to I2C_DeviceIrqHandler with the fixed device, so it has no separate member.
- The TPM write `TPM |= (0 << off) & mask` is modelled, but only as an OR; `ConfiguredTpmKeepsRegister` shows that it changes nothing.
- Enumeration values outside their C range, such as a byte that is no `I2CDirection`, cannot be represented, because the enumerations are datatypes. The mode stays a byte, because I2C_SetupController checks it.
- `Transaction.mode` is not recorded. No operation reads it.
- Pointer arithmetic on the transaction buffer is a cursor index into the array.
- I2CHal.Hal.LaunchTransaction and I2CHal.Hal.Launch require that a descriptor's buffer holds at least `data_count` bytes. The C code never checks this, and a shorter buffer is undefined behaviour in the FIFO and DMA paths. The model does not cover callers that pass a short buffer.
- The FIFOFULL and FIFOEMPTY Status bits are derived from the FIFO's occupancy through `StatusWord`; they are not stored bits. The model assumes the flags always match the occupancy, with no lag between a Data access and the Status flags. FillStopsWhenFull, DrainStopsWhenEmpty and FifoFlagsReflectOccupancy hold because of this assumption.
- Si7021_ConvertTemp and Si7021_ConvertHumidity, the float conversions, are not modelled. Si7021.Driver.ReadTemperature and Si7021.Driver.ReadHumidity return the checked 16-bit code that those conversions receive.
- Si7021_Create, Si7021_Destroy and Si7021Task are not modelled: they handle the RTOS task and mutex creation and the periodic task loop. The mutex is a flag, and vTaskDelay is a logged event.
- The I2C wrapper (`I2CWrapper_LaunchI2CTransaction`) is the oracle `bus`. The exact contents of the wrapper's `setup_info` and of the shared descriptor are implied, not stored: the `Written` and `ReadRequested` log events carry the address, direction and length.
- Si7021.Driver.Read assumes a failed read leaves the response buffer as it was; what the wrapper writes on failure is not part of this model.
- Printer logging (`SI7021_INFO`, `SI7021_ERROR`, `SI7021_DEBUG`) is not modelled.
