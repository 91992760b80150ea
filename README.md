# STM32 ROM-bootloader client: probe handshake and response records

This project models the host side of the STM32 USART bootloader protocol
(ST application note AN3155) as far as the client `Stm32BootClient`
implements it: the result-code taxonomy, the protocol constants, the
fixed-layout records of the GET and GET VERSION & READ PROTECTION STATUS
responses with their accessors, and the operations `init`, `ResetMCU`,
`checkMcuPresence` and `errorCode2String`.

Layout:

- `Bytes.dfy` — the `byte` type and an `Option` datatype.
- `Decimal.dfy` — the decimal rendering the client obtains from
  `std::to_string`, with a reader proved to undo it.
- `BootRecords.dfy` — the header `stm32_boot_client.hpp`: `ErrorCode`,
  `Command`, the ACK/NACK/probe bytes and delays, the two response records,
  their packed byte layout and their accessors (nibble split of the boot
  version, its "high.low" string, the command list and its bounds-checked
  accessor).
- `SerialIo.dfy` — the serial layer the client calls (`Stm32Io`), as a
  `Port` class: each write and read takes its outcome from a script fixed
  at construction, and every call (port init, BOOT0 and RESET levels,
  delays, writes, reads) is appended to an event log. An exhausted write
  script lets every write through whole; an exhausted read script makes
  every read time out, reporting success with zero bytes as a serial read
  with a total timeout does. Replies never report more bytes than asked.
- `BootClient.dfy` — `stm32_boot_client.cpp`: `Init`, `ResetMcu` and
  `CheckMcuPresence` are methods over a `Port`. `Init` returns the port's
  open status and leaves the log `InitTrace` of it; `ResetMcu` appends the
  constant event sequence `ResetPulse`; `CheckMcuPresence` returns
  `ProbeOutcome` of the two replies and leaves the log `ProbeTrace`. What
  these logs and results contain is proved as lemmas. `ErrorCodeToString`
  is the message table.

Points of the source the model settles:

- `checkMcuPresence` sends the byte named `ACK_CODE`, which the header
  never declares (stm32_boot_client.cpp:24); the header's `ACK_ASK_CODE`
  (0x7F, stm32_boot_client.hpp:79) and the function's own comment
  (stm32_boot_client.cpp:18) fix the value, so the probe byte is 0x7F.
- The code never drives BOOT0 low again before or after the probe
  (stm32_boot_client.cpp:26-28); `ProbeTraceOrder` proves it.
- A short write or read is reported as `FAILED` and a wrong answer byte as
  `ACK_FAILED`; there are no separate codes for them
  (stm32_boot_client.hpp:11-18).
- `getCommandListSize` is the size of the array (11), not the record's
  byte-count field (stm32_boot_client.hpp:35-37).

## Model

| member | source | states |
|---|---|---|
| `BootRecords.CodeOf` | stm32_boot_client.hpp:11-18 | every result code has a numeric value at most 5, and only `OK` has value 0 |
| `BootRecords.CodeOfInjective` | stm32_boot_client.hpp:11-18 | distinct result codes have distinct numeric values |
| `BootRecords.ControlBytesDistinct` | stm32_boot_client.hpp:79-81 | the probe byte 0x7F, ACK 0x79 and NACK 0x1F are pairwise distinct |
| `BootRecords.SplitBootVersion` | stm32_boot_client.hpp:26-29 | the shift/mask split yields two nibbles that pack back into the version byte |
| `BootRecords.SplitJoinBootVersion` | stm32_boot_client.hpp:26-29 | splitting a packed nibble pair gives the same pair back, so the split is the unique one |
| `BootRecords.GetBootVer` | stm32_boot_client.hpp:26-29 | GET record: high and low are both below 16 and high*16 + low equals the boot-version byte |
| `BootRecords.GvRpsGetBootVer` | stm32_boot_client.hpp:53-56 | GET VERSION & READ PROTECTION STATUS record: the same nibble bounds and recombination |
| `BootRecords.BootVersionString` | stm32_boot_client.hpp:30-34 | the decimal "high.low" rendering of a nibble pair reads back to that pair under a reader that rejects leading zeros |
| `BootRecords.GetBootVerStr` | stm32_boot_client.hpp:30-34 | GET record: the version string is 3 to 5 characters and reads back to exactly the pair `getBootVer` gives |
| `BootRecords.GvRpsGetBootVerStr` | stm32_boot_client.hpp:57-61 | GET VERSION & READ PROTECTION STATUS record: the same length bound and read-back |
| `BootRecords.ParseBootVersionStringCanonical` | stm32_boot_client.hpp:33 | every string the reader accepts is exactly the `std::to_string` rendering of the pair it yields, so no padded form such as "1.05" reads back |
| `BootRecords.GetBootVerStrUnique` | stm32_boot_client.hpp:30-34 | GET record: the version string is the only string reading back to its version pair |
| `BootRecords.GvRpsGetBootVerStrUnique` | stm32_boot_client.hpp:57-61 | GET VERSION & READ PROTECTION STATUS record: the version string is the only string reading back to its pair |
| `Decimal.FromNatToNat` | stm32_boot_client.hpp:33 | a digit string without a leading zero is the rendering of the number it denotes |
| `BootRecords.GetBootVerStrInjective` | stm32_boot_client.hpp:30-34 | two GET records with the same version string carry the same version byte |
| `BootRecords.BootVersionStringParses` | stm32_boot_client.hpp:33 | the rendering of decimal high, ".", decimal low is read back by splitting at the first '.' |
| `BootRecords.LengthOfSmallRendering` | stm32_boot_client.hpp:33 | a number below 16 renders to one or two digits |
| `BootRecords.GetCommandListSize` | stm32_boot_client.hpp:35-37 | the list size is the fixed array size 11, whatever the byte-count field holds |
| `BootRecords.GetCommand` | stm32_boot_client.hpp:38-45 | an index below 11 yields that array entry as a command (any byte value); any larger index yields GET (0x00) without reading the array |
| `BootRecords.GetResponseBytes` | stm32_boot_client.hpp:46-50 | the packed GET record is 13 bytes: byte count, boot version, then the 11 opcodes |
| `BootRecords.ParseGetResponse` | stm32_boot_client.hpp:46-50 | a GET record is read from exactly 13 bytes and from no other length: byte count at offset 0, version at 1, opcodes from 2 |
| `BootRecords.GetResponseRoundTrip` | stm32_boot_client.hpp:46-50 | reading back the packed bytes of a GET record gives the record |
| `BootRecords.GetResponseBytesRoundTrip` | stm32_boot_client.hpp:46-50 | packing a GET record read from 13 bytes gives those bytes |
| `BootRecords.GvRpsResponseBytes` | stm32_boot_client.hpp:62-66 | the packed GET VERSION & READ PROTECTION STATUS record is 3 bytes: boot version, option byte 1, option byte 2 |
| `BootRecords.ParseGvRpsResponse` | stm32_boot_client.hpp:62-66 | that record is read from exactly 3 bytes, its fields from offsets 0, 1 and 2 |
| `BootRecords.GvRpsBootVerFromWire` | stm32_boot_client.hpp:53-65 | on a received record, the boot version is split from the first byte |
| `BootRecords.GvRpsResponseRoundTrip` | stm32_boot_client.hpp:62-66 | reading back its packed bytes gives the record |
| `BootRecords.GvRpsResponseBytesRoundTrip` | stm32_boot_client.hpp:62-66 | packing a record read from 3 bytes gives those bytes |
| `BootRecords.GetCommandFromWire` | stm32_boot_client.hpp:38-50 | on a received GET record, command i (i < 11) is the byte at offset 2 + i, later indexes yield GET, and the version comes from the second byte |
| `Decimal.FromNat` | stm32_boot_client.hpp:33 | `std::to_string` of a number is a non-empty string of digits with no leading zero, one digit exactly for numbers below 10 |
| `Decimal.ToNatFromNat` | stm32_boot_client.hpp:33 | reading a decimal rendering back gives the number rendered |
| `Decimal.FromNatInjective` | stm32_boot_client.hpp:33 | distinct numbers have distinct renderings |
| `SerialIo.NextWrite` | stm32_io_pc.cpp:63-77 | a write reports at most the bytes asked for, and its status is the scripted one |
| `SerialIo.NextRead` | stm32_io_pc.cpp:88-101 | a read delivers at most the bytes asked for, a prefix of the scripted ones, and times out empty once the script is exhausted |
| `SerialIo.Port.Init` | stm32_io_pc.cpp:15-52 | opening the port reports the scripted status and logs one init event |
| `SerialIo.Port.Write` | stm32_io_pc.cpp:63-77 | a write consumes one scripted reply and logs the bytes sent |
| `SerialIo.Port.Read` | stm32_io_pc.cpp:88-101 | a read consumes one scripted reply and logs the size requested |
| `SerialIo.Port.SetResetLine` | stm32_io_pc.cpp:119-124 | driving RESET logs its level |
| `SerialIo.Port.SetBootLine` | stm32_io_pc.cpp:132-139 | driving BOOT0 logs its level |
| `SerialIo.Port.DelayMs` | stm32_io_pc.cpp:146-148 | a delay logs its length |
| `BootClient.InitTrace` | stm32_boot_client.cpp:9-15 | `init` opens the port and does nothing else but, exactly when opening returned OK, a 777 ms delay |
| `BootClient.Init` | stm32_boot_client.cpp:9-15 | returns the port's init status unchanged and leaves exactly `InitTrace` of it in the log |
| `BootClient.ResetMcu` | stm32_boot_client.cpp:57-61 | RESET low, a 100 ms delay, RESET high, and nothing else |
| `BootClient.ProbeOutcome` | stm32_boot_client.cpp:28-43 | the probe's classification never yields OK |
| `BootClient.ProbeTrace` | stm32_boot_client.cpp:26-36 | the probe issues six side effects when the byte went out and five otherwise |
| `BootClient.CheckMcuPresence` | stm32_boot_client.cpp:22-44 | returns `ProbeOutcome` of the write and read replies, leaves exactly `ProbeTrace` in the log, consumes one write reply, and consumes a read reply only after a complete write |
| `BootClient.ProbeWriteFailurePropagates` | stm32_boot_client.cpp:28-29 | a failed write status is returned unchanged and the result does not depend on any read |
| `BootClient.ProbeShortWriteFails` | stm32_boot_client.cpp:30-31 | a successful write that did not send exactly one byte gives FAILED |
| `BootClient.ProbeReadFailures` | stm32_boot_client.cpp:34-36 | after the probe went out, a failed read status is returned unchanged and a read of other than one byte gives FAILED |
| `BootClient.ProbeAcknowledgedIff` | stm32_boot_client.cpp:28-38 | over a serial layer reporting only transport statuses, ACK_OK iff exactly the byte 0x79 came back after a complete write, and ACK_FAILED iff some other single byte did |
| `BootClient.ProbeNackIsNotAck` | stm32_boot_client.cpp:38 | a NACK (0x1F) answer gives ACK_FAILED |
| `BootClient.ProbeTraceOrder` | stm32_boot_client.cpp:26-34 | BOOT0 high, RESET low, 100 ms, RESET high precede the single write, which is exactly [0x7F]; BOOT0 is never lowered; the read is requested iff the write completed |
| `BootClient.ProbeOutcomeHasText` | stm32_boot_client.cpp:45-56 | over a serial layer that never reports DBG_CODE, the probe's result is always inside the message table, as the caller printing it needs |
| `BootClient.ProbeAnsweredWithAck` | stm32_boot_client.cpp:34-38 | a target answering the probe with ACK yields ACK_OK |
| `BootClient.ProbeTimesOut` | stm32_boot_client.cpp:34-36 | a silent target (the read times out with no byte) yields FAILED |
| `BootClient.ErrorCodeToString` | stm32_boot_client.cpp:45-56 | a code with a table entry has a non-empty text; the debug code is excluded by the precondition |
| `BootClient.ErrorCodeToStringTable` | stm32_boot_client.cpp:45-56 | codes 0..4 map to "OK", "Generic Error", "ACK has been received", "No ACK received", "Can't open serial port", and DBG_CODE lies outside the table |
| `BootClient.ErrorCodeToStringInjective` | stm32_boot_client.cpp:45-56 | distinct printable codes have distinct texts |

## Left out

- `commandGet`, `commandGvRps` and `commandGetId` are declared in the header but have no definition in the source; they are not modelled. How the records get filled is modelled only as their packed byte layout.
- `readMcuSpecificInfo`, `eraseAllMemory`, `commandGo`, `chipId2McuType` and `mcuType2String`, called by the command-line tool, are neither declared nor defined in the client; they are not part of this model, nor is the `McuType` enum, which only the command-line tool uses.
- The `instance()` singleton carries no state (all members are static), so the operations take the port as a parameter instead.
- The serial layer itself (Win32 `CreateFile`/`DCB`/timeouts, the LPC43xx driver, console prompts standing in for GPIO) is replaced by the scripted `Port`; real timing is recorded as `Wait` events only.
- The command-line tool (option parsing, console output, file buffers) is not modelled.
- `BootClient.ProbeAcknowledgedIff`: holds only when the serial layer reports transport statuses, not ACK_OK, ACK_FAILED or DBG_CODE; the source passes any status from write or read straight through, so a serial layer returning ACK_OK would make `checkMcuPresence` return ACK_OK without an answer byte.
- `BootClient.ProbeOutcomeHasText`: holds only when the serial layer never reports DBG_CODE; the source passes that status straight through, so it would reach `errorCode2String` outside its table.
- `BootClient.ErrorCodeToString`: the precondition stands for `configASSERT(idx < 5)` (stm32_boot_client.cpp:54); on the PC build that assert only prints a message and waits for ENTER (stm32_io_pc.hpp:7), after which `msgs[5]` is read out of bounds for DBG_CODE. The model excludes that call instead of modelling the out-of-bounds read.
- `BootRecords.GetCommand`: the index is an unbounded natural number rather than a `size_t`; every `size_t` value is covered.
