# ADC-USART firmware core in Dafny

A model of the sequential logic in a set of AVR128DB48 demo programs, with proofs about it:

- **the I2C (TWI0) master driver** (`Include/AVR128DB48_I2C/AVR128DB48_I2C.c`). Module `I2cMaster`, class `Twi`; the status enum is module `I2cStatus`.
  - Each call checks that the master is idle and sends the address byte.
  - It then classifies MSTATUS with `check_errors`, moves data bytes with ACK/NACK handling, and ends with STOP.
  - The hardware is an oracle `hw(k)`: the MSTATUS/MDATA snapshot that the k-th completion wait returns.
  - The driver's register writes (MADDR, MDATA, MCTRLB, MSTATUS) are kept as a trace `regs`.
  - The MSTATUS value that a transfer's idle test reads on entry is an input of that transfer (`entryStatus`). The previous transfer ended with STOP, so the bus may read differently from the last completion snapshot.
  - `Twi.literal` selects which `check_errors` the driver runs: the test as written, or the corrected one (see Findings). Every driver contract is stated for either choice.
- **the LCD command layer** (`Include/I2C_LCD/I2C_LCD.c`). Module `Lcd`, class `Display`.
  - It drives an HD44780 16x2 display in 4-bit mode through a PCF8574 port expander.
  - Every instruction or character becomes expander bytes: each nibble is written once with E high and once with E low.
  - Those bytes carry the RS/RW pins and the persisted backlight bit `display_state`.
  - Each expander write is `i2c_write_byte(0x27, b)`. It is seen through the status it returns: an oracle `bus(k)` for the k-th write, plus the trace `sent` of bytes written.
  - Every operation states the bytes sent as a prefix of the bytes it plans: all of them, or up to and including the first write that failed (`Attempts`, `Succeeds`). It also states its result status.
- **`int_to_string`**, which is identical in `main1.c`, `main2.c` and `main4.c` apart from a dead branch in `main4.c`. Module `Decimal`.
  - It writes a `uint16_t` into a char buffer: digits least significant first, then a NUL.
  - It then reverses the digits in place.
  - The method is proved against `DecimalOf`, the usual decimal rendering, and `DecimalOf` is proved to parse back to the number.
- **the USART3 receive interrupt of `main5.c`**. Module `UsartReceive`, class `Receiver`.
  - It collects characters into a 64-char buffer until a `'.'` arrives.
  - The `'.'` becomes a NUL, the index returns to 0 and the `data_received` flag is raised.
  - The method is proved against the pure step function `Receive`. Its behaviour over a run of characters is stated through `ReceiveAll`.

Quirks of the driver that the model keeps:

- **Write ignores the address phase.** `i2c_write` runs `check_errors` after the address phase, which may issue STOP, but ignores its result.
- **The idle test accepts BUSY.** It masks MSTATUS with the IDLE group code, so BUSY passes as well as IDLE.
- **The backlight switch touches the display.** `lcd_backlight` re-sends display control: display on when the backlight goes on, display off when it goes off.
- **Only `lcd_init` passes a status through.** It returns the status of its very first expander write unchanged. Every later failure becomes ERROR.

The source's `check_errors` tests MSTATUS against `TWI_RXACK_bp`, a bit position, where it should use the bit mask (see Findings).

- `I2cMaster.ErrorCheck` models the test as written, and `I2cMaster.ErrorCheckIntended` is the corrected one.
- The driver runs `ErrorCheckOf(literal, mstatus)`, so its contracts cover both: with `literal` set, they describe the code as written.

`i2c_write` ignores the result of the address-phase check, unlike the other three transfers.

## Model

| member | source | states |
|---|---|---|
| `I2cMaster.IdleTestAcceptsBusy` | Include/AVR128DB48_I2C/AVR128DB48_I2C.c:80-81 | the "not idle" guard passes exactly when BUSSTATE is IDLE or BUSY |
| `I2cMaster.AddressByteLayout` | Include/AVR128DB48_I2C/AVR128DB48_I2C.c:172 | the address byte has the direction in bit 0 and the low 7 address bits above it; adding the read bit gives the same byte as or-ing it in |
| `I2cMaster.ErrorCheckFlags` | Include/AVR128DB48_I2C/AVR128DB48_I2C.c:257-277 | `check_errors` as written reports NACK exactly when BUSERR is set, never reports ERROR, and ignores RXACK; ARBLOST then BUSY follow in that priority |
| `I2cMaster.ErrorCheckIntended` | Include/AVR128DB48_I2C/AVR128DB48_I2C.c:257-277 | the corrected check: NACK iff RXACK; else ARBITRATION_LOST iff ARBLOST; else ERROR iff BUSERR; else ERROR_NOT_READY iff BUSY; else SUCCESS |
| `I2cMaster.NackMaskedAsBusError` | Include/AVR128DB48_I2C/AVR128DB48_I2C.c:259 | an unacknowledged byte passes the as-written check and a bus error is reported as NACK; the corrected check reports NACK and ERROR |
| `I2cMaster.ErrorCheckAgrees` | Include/AVR128DB48_I2C/AVR128DB48_I2C.c:257-277 | the as-written and corrected checks agree whenever neither RXACK nor BUSERR is set |
| `I2cMaster.StopOnError` | Include/AVR128DB48_I2C/AVR128DB48_I2C.c:257-277 | at most one STOP, and none exactly when the result is SUCCESS |
| `I2cMaster.DataWritesAt` | Include/AVR128DB48_I2C/AVR128DB48_I2C.c:97 | the i-th MDATA write of a transfer carries `data[i]` |
| `I2cMaster.FirstNack` | Include/AVR128DB48_I2C/AVR128DB48_I2C.c:95-105 | the index of the first data byte whose completion shows RXACK, at most the length |
| `I2cMaster.FirstNackFound` | Include/AVR128DB48_I2C/AVR128DB48_I2C.c:95-105 | every byte before `FirstNack` was acknowledged, and the byte at `FirstNack` (if any) was not |
| `I2cMaster.FirstNackAt` | Include/AVR128DB48_I2C/AVR128DB48_I2C.c:101-105 | a byte that is the first one not acknowledged is the one `FirstNack` names |
| `I2cMaster.FirstNackNone` | Include/AVR128DB48_I2C/AVR128DB48_I2C.c:95-106 | when every byte is acknowledged, `FirstNack` is the length |
| `I2cMaster.FirstNackStep` | Include/AVR128DB48_I2C/AVR128DB48_I2C.c:101-105 | scanning the loop forward, byte p is the first unacknowledged one exactly when its snapshot shows RXACK |
| `I2cMaster.SentCount` | Include/AVR128DB48_I2C/AVR128DB48_I2C.c:94-106 | the bytes handed to MDATA: all of them, or up to and including the first not acknowledged |
| `I2cMaster.ReceivedAt` | Include/AVR128DB48_I2C/AVR128DB48_I2C.c:193 | the i-th stored byte is the MDATA of the i-th completion of the read loop |
| `I2cMaster.AcksAll` | Include/AVR128DB48_I2C/AVR128DB48_I2C.c:196-198 | every command between the bytes of a read is ACK+RECVTRANS, and there are length-1 of them |
| `I2cMaster.Twi.WaitForStateChange` | Include/AVR128DB48_I2C/AVR128DB48_I2C.c:248-255 | returns with the next snapshot, which satisfies the loop's exit condition; no register is written |
| `I2cMaster.Twi.CheckErrors` | Include/AVR128DB48_I2C/AVR128DB48_I2C.c:257-277 | returns the classification of MSTATUS (as written when `literal`, corrected otherwise) and issues exactly one STOP iff it is not SUCCESS |
| `I2cMaster.Twi.AddressPhase` | Include/AVR128DB48_I2C/AVR128DB48_I2C.c:129-138 | MADDR write, one completion wait, then the error check with its STOP |
| `I2cMaster.Twi.TransmitData` | Include/AVR128DB48_I2C/AVR128DB48_I2C.c:93-111 | bytes go to MDATA in order up to and including the first NACK; one STOP follows; NACK iff some byte was not acknowledged |
| `I2cMaster.Twi.SendByte` | Include/AVR128DB48_I2C/AVR128DB48_I2C.c:97-105 | one MDATA write, one wait, and the RXACK test on its snapshot |
| `I2cMaster.Twi.Write` | Include/AVR128DB48_I2C/AVR128DB48_I2C.c:77-112 | only SUCCESS, NACK or ERROR_NOT_READY; a bus not idle on entry means ERROR_NOT_READY with nothing changed; otherwise the full register trace, with the address check's result ignored |
| `I2cMaster.Twi.WriteByte` | Include/AVR128DB48_I2C/AVR128DB48_I2C.c:122-155 | a bus not idle on entry means ERROR_NOT_READY with nothing changed; otherwise the first failing check's status with one STOP, or SUCCESS after address, data and one STOP |
| `I2cMaster.Twi.ReceiveData` | Include/AVR128DB48_I2C/AVR128DB48_I2C.c:186-202 | `data[0..length)` receives the MDATA of `length` completions in order and the rest of the array is unchanged; length-1 ACK+RECVTRANS, then one NACK+STOP |
| `I2cMaster.Twi.ReceiveByte` | Include/AVR128DB48_I2C/AVR128DB48_I2C.c:190-198 | one wait, one stored byte, and ACK+RECVTRANS unless it was the last byte |
| `I2cMaster.Twi.Read` | Include/AVR128DB48_I2C/AVR128DB48_I2C.c:165-205 | a bus not idle on entry means ERROR_NOT_READY with nothing changed; an address error returns its status after one STOP with the buffer untouched; otherwise clock release, the received bytes, the ACKs and NACK+STOP, and SUCCESS |
| `I2cMaster.Twi.ReadByte` | Include/AVR128DB48_I2C/AVR128DB48_I2C.c:214-245 | as `Read` for one byte: `data[0]` is the MDATA after the clock release, followed by NACK+STOP; the data phase is not checked |
| `Lcd.InstructionCodes` | Include/I2C_LCD/I2C_LCD.c:37-48 | the commands are function set 0x28, display on/off 0x0C/0x08, clear 0x01, entry modes 0x06/0x04, and the wake-up nibbles 0x30/0x20 |
| `Lcd.Frames` | Include/I2C_LCD/I2C_LCD.c:282-313 | one `lcd_write_data` call writes four expander bytes, or two during initialisation |
| `Lcd.FramesDrivePins` | Include/I2C_LCD/I2C_LCD.c:285-309 | with `display_state` 0 or BT the sums never carry: bytes 0–1 hold the high nibble and bytes 2–3 the low one, RS/RW as asked, E high then low, and the backlight as `display_state` says |
| `Lcd.FramesRoundTrip` | Include/I2C_LCD/I2C_LCD.c:282-313 | the byte the HD44780 latches from the two E falling edges is the byte sent |
| `Lcd.AttemptsAll` | Include/I2C_LCD/I2C_LCD.c:297-311 | when every write succeeds, every planned write is made |
| `Lcd.AttemptsStop` | Include/I2C_LCD/I2C_LCD.c:297-311 | when one fails, the writes stop right after the first failing one, and all before it succeeded |
| `Lcd.CursorCommand` | Include/I2C_LCD/I2C_LCD.c:199-208 | the cursor instruction always has the set-DDRAM-address bit D7 |
| `Lcd.CursorOnScreen` | Include/I2C_LCD/I2C_LCD.c:188-208 | the DDRAM address is the row offset (0x00 or 0x40) plus the clamped column, so it lies in 0x00..0x0F or 0x40..0x4F |
| `Lcd.CursorClamps` | Include/I2C_LCD/I2C_LCD.c:201-206 | out-of-range positions give the same instruction as column 15, row 1 (0xCF) |
| `Lcd.CString` | Include/I2C_LCD/I2C_LCD.c:240 | the characters before the first NUL: a prefix of the string, followed by the NUL and holding no NUL |
| `Lcd.CharFramesAt` | Include/I2C_LCD/I2C_LCD.c:240-245 | bytes 4i..4i+3 of a string's writes are the full transfer of its i-th character, as data |
| `Lcd.CharFramesCarryText` | Include/I2C_LCD/I2C_LCD.c:239-249 | the controller latches the string's characters in order |
| `Lcd.ClearHomeAB` | Include/I2C_LCD/I2C_LCD.c:179-249 | with the backlight on, clear, cursor to (0,0) and "AB" are these sixteen expander bytes, all carrying the backlight bit |
| `Lcd.InitBytesFromReset` | Include/I2C_LCD/I2C_LCD.c:72-126 | from power-on `lcd_init` writes exactly 29 bytes: 0x00, the wake-up nibbles 0x3, 0x3, 0x3, 0x2, then 0x28, 0x0C, 0x01, 0x06, and 0x0C again with the backlight on |
| `Lcd.Display.constructor` | Include/I2C_LCD/I2C_LCD.c:52 | `display_state` starts at 0, with nothing written |
| `Lcd.Display.Init` | Include/I2C_LCD/I2C_LCD.c:72-126 | the writes are a prefix of the 29 planned bytes, stopping at the first failure; the first write's own status comes back verbatim, any later failure as ERROR; the backlight bit is set once the configuration went through |
| `Lcd.Display.WakeUp` | Include/I2C_LCD/I2C_LCD.c:82-102 | the 4-bit wake-up half transfers, stopping at the first failure; SUCCESS iff all succeed |
| `Lcd.Display.Configure` | Include/I2C_LCD/I2C_LCD.c:104-119 | function set, display on, clear and left to right as full transfers, stopping at the first failure |
| `Lcd.Display.ExpanderWrite` | Include/I2C_LCD/I2C_LCD.c:76 | one byte is appended to the trace and its status is returned |
| `Lcd.Display.WriteData` | Include/I2C_LCD/I2C_LCD.c:282-313 | the byte's frames with the current `display_state`, stopping at the first failure; SUCCESS or ERROR, whatever the bus said |
| `Lcd.Display.SendPulses` | Include/I2C_LCD/I2C_LCD.c:296-311 | the high pulse, then (unless initialising) the low pulse, with early exit |
| `Lcd.Display.SendPulse` | Include/I2C_LCD/I2C_LCD.c:297-302 | E high, then E low, the second only if the first succeeded |
| `Lcd.Display.Enable` | Include/I2C_LCD/I2C_LCD.c:133-147 | display on (0x0C) or off (0x08) as one full transfer; SUCCESS or ERROR |
| `Lcd.Display.Backlight` | Include/I2C_LCD/I2C_LCD.c:155-171 | `display_state` becomes BT or 0 whether or not the write succeeds; then the same transfer as `lcd_enable`, carrying the new backlight bit |
| `Lcd.Display.Clear` | Include/I2C_LCD/I2C_LCD.c:179-185 | the clear instruction; SUCCESS or ERROR |
| `Lcd.Display.MoveCursor` | Include/I2C_LCD/I2C_LCD.c:199-213 | the clamped set-DDRAM-address instruction; SUCCESS or ERROR |
| `Lcd.Display.PutChar` | Include/I2C_LCD/I2C_LCD.c:223-229 | the character as data (RS set); SUCCESS or ERROR |
| `Lcd.Display.PutString` | Include/I2C_LCD/I2C_LCD.c:239-249 | each character before the NUL as data, in order, stopping at the first failed write; SUCCESS iff every write succeeded, otherwise ERROR |
| `Lcd.Display.PutNext` | Include/I2C_LCD/I2C_LCD.c:240-245 | one pass of the loop extends the string's writes by one character, or ends them at the failing write |
| `Lcd.Display.LeftToRight` | Include/I2C_LCD/I2C_LCD.c:258-264 | entry mode incrementing (0x06); SUCCESS or ERROR |
| `Lcd.Display.RightToLeft` | Include/I2C_LCD/I2C_LCD.c:273-279 | entry mode decrementing (0x04); SUCCESS or ERROR |
| `Decimal.DigitChar` | main1.c:26 | `'0' + d` is a digit character whose value is d |
| `Decimal.DecimalOf` | main1.c:18-38 | the reference rendering has at least one digit, all digits, and a leading '0' only for zero |
| `Decimal.ValueOfDecimal` | main1.c:25-36 | reading the rendering back gives the number |
| `Decimal.DecimalLengthBound` | main1.c:25-28 | a number below 10^k has at most k digits |
| `Decimal.FitsBuffer` | main1.c:15 | a `uint16_t` has at most five digits, so digits and NUL fit the SIZE-7 buffer |
| `Decimal.SignBranchNeverTaken` | main4.c:24-27 | the `number < 0` branch never fires for a `uint16_t`, and no '-' is emitted |
| `Decimal.ReversedAt` | main1.c:32-36 | position k of the reversal holds the element at position-1-k |
| `Decimal.ReversedIsPermutation` | main2.c:33-37 | the reversal only permutes the digits |
| `Decimal.ReversedEmitted` | main1.c:21-36 | reversing what the digit loop emits gives the decimal rendering, most significant digit first |
| `Decimal.IntToString` | main1.c:18-38 | the buffer holds the decimal rendering followed by NUL, nothing beyond is touched, and the same buffer is returned |
| `Decimal.EmitDigits` | main1.c:19-28 | "0" for zero, otherwise the digits least significant first; returns the digit count and leaves the rest of the buffer alone |
| `Decimal.ReverseDigits` | main1.c:32-36 | `buffer[0..position)` is reversed in place and nothing at or beyond `position` changes |
| `UsartReceive.Receive` | main5.c:43-56 | one run of the handler keeps the buffer at 64 chars and the index at most 63 |
| `UsartReceive.ReceiveAll` | main5.c:43-56 | the index bound holds over any run of characters |
| `UsartReceive.EndOfMessage` | main5.c:46-49 | on '.', a NUL is written at the index and nothing else in the buffer changes, the index becomes 0 and the flag is raised |
| `UsartReceive.OverflowDropped` | main5.c:52-54 | a character that finds the index at 63 changes nothing |
| `UsartReceive.StoredInArrivalOrder` | main5.c:52-54 | characters that fit are stored in arrival order from the current index, and the rest of the buffer and the flag are unchanged |
| `UsartReceive.FirstMessageStored` | main5.c:53 | from index 0, k <= 63 characters land at positions 0..k-1 |
| `UsartReceive.OverflowKeepsFirst` | main5.c:52-54 | characters of a message beyond capacity are dropped: the run ends as if only those that fit had arrived |
| `UsartReceive.DroppedWhileFull` | main5.c:52 | with the index at 63, a run without '.' changes nothing |
| `UsartReceive.PeriodNeverStored` | main5.c:46-53 | '.' never appears in the buffer |
| `UsartReceive.FlagOnlyRaised` | main5.c:49 | after a run, the flag is raised iff it was raised before or a '.' arrived; the handler never clears it |
| `UsartReceive.Receiver.constructor` | main5.c:15-17 | the globals start zeroed |
| `UsartReceive.Receiver.OnReceive` | main5.c:43-56 | the handler's effect on buffer, index and flag is exactly `Receive` |

## Left out

- `i2c_init`, including its call at the start of `lcd_init`: it only configures peripheral registers. The model starts from a given MSTATUS.
- All `_delay_us` / `_delay_ms` calls: they only affect timing and carry no data.
- I2cMaster.Twi.WaitForStateChange: the poll has no timeout, and a bus that never satisfies the exit condition would hang the caller. The model only covers hardware that eventually ends every wait (type `Completion`).
- Lcd.Display.ExpanderWrite: the expander write is the status oracle `bus`. The I2C transaction behind it (`I2cMaster.Twi.WriteByte` at address 0x27) is not connected to the LCD model.
- The volatile `status` globals of both files: they are scratch copies of return values that nothing reads back.
- `USART_send_String` inside the receive interrupt, and all USART, ADC, PWM and timer setup and I/O: they are register and hardware I/O.
- The `main()` loops, `snprintf`/`sscanf`, and the sharing of `USART_buffer` between the interrupt and the main loop: these are foreign calls and concurrency.
- What MSTATUS reads after a transfer's STOP: the hardware decides it. The model takes each transfer's idle-test reading as the input `entryStatus` and does not relate it to earlier snapshots.
- Register bit values from the AVR device header, which is not part of this model: they are restated as constants in `I2cMaster`.
- `Lcd.Display.WriteData` computes its two nibble bytes as expressions rather than through the C locals `high_data`, `low_data` and `control`. The values are the same.

## Findings

| source | as written | input that shows it | evidently intended | confidence | as-written member | corrected member |
|---|---|---|---|---|---|---|
| Include/AVR128DB48_I2C/AVR128DB48_I2C.c:259 | `check_errors` tests `MSTATUS & TWI_RXACK_bp`. That constant is the bit position 4, which as a mask is the BUSERR bit, so a bus error is reported as NACK and RXACK is never tested. | MSTATUS = 0x31 (CLKHOLD, RXACK, bus IDLE: a slave that did not acknowledge its address) gives SUCCESS; MSTATUS = 0x25 (CLKHOLD, BUSERR, bus IDLE) gives NACK | test `TWI_RXACK_bm`: NACK on RXACK, ERROR on a bus error | high; not executed | `I2cMaster.ErrorCheck` (`I2cMaster.NackMaskedAsBusError`, `I2cMaster.ErrorCheckFlags`) | `I2cMaster.ErrorCheckIntended` |
