# SNESoIP controller bus and UART, modelled in Dafny

This project models three small pieces of the SNESoIP firmware and proves
properties about them.

- **The SNES controller-bus driver** of the ESP32 firmware
  (`Firmware/src/SNES.c`). `InitSNES` clears the driver record and sets the
  input word to `0xffff` ("no buttons"). It then sets up the data line as an
  input. Next it configures the latch channel (idle low) and fills its one
  item. Then it configures the clock channel (idle high) and fills its
  seventeen items. Finally it starts the reader task. The task sends the latch item, then the first 16 clock
  items, then sleeps, for as long as the run flag is set. `DeInitSNES`
  clears the flag and `GetSNESInputData` returns the stored word.
- **The UART helpers** of the AVR firmware (`firmware/src/uart.c`).
  `initUART` loads the baud divisor and the control bits. `uartPutc` and
  `uartPuts` send a byte and a NUL-terminated string. `uartPrintArray`
  prints a byte array in a given base with a delimiter between elements.
- **The baud divisor** `BAUDRATE` of `firmware/src/uart.h`, with its
  `#ifndef` defaults.

Files:

- `CTypes.dfy`: fixed-width unsigned types and `Option`.
- `Waveform.dfy`: RMT items as per-tick line levels, and edge counting.
- `Snes.dfy`: the `Driver` class, its tables and poll loop, and the
  waveform lemmas.
- `Baud.dfy`: the divisor in 32-bit unsigned arithmetic.
- `Itoa.dfy`: digit conversion used by `uartPrintArray`.
- `Uart.dfy`: the `Uart` class, holding its registers and the bytes it has sent.

How the model represents the environment:

- Driver and operating-system calls are not performed. `gpio_config`,
  `rmt_config` with `rmt_driver_install`, `xTaskCreate`, `rmt_write_items`,
  `vTaskDelay` and `vTaskDelete` are appended as `Action` values to the
  driver's `bus` trace. `rmt_write_items` is recorded with the items it
  transmits, which is the table prefix selected by its count, and with its
  wait flag.
- A tick of the RMT clock is an abstract unit. A channel's waveform is the
  idle level, then each item's `duration0` ticks at `level0` and
  `duration1` ticks at `level1`, then the idle level again.
- `DeInitSNES` comes from another task. `ReadInputThread` therefore takes a
  `StopRequest` saying in which iteration the flag is cleared. It also says
  where: before that iteration's test of the flag, or before one of the steps
  in its body.
- `portTICK_PERIOD_MS` is a constructor parameter of the driver.
- `BAUD` and `F_CPU` are optional constructor parameters of the UART.
  Passing none selects the defaults.
- The bytes written to `UDR0` are the `sent` trace.

The code and its documentation disagree on the clock burst. The comment
above `_SNESReadInputThread` describes 16 clock pulses. The code sends items
0..15 of the clock table, and item 0 is high in both halves. The line
therefore carries 15 pulses per burst, and item 16 is never sent. The model
follows the code: `Snes.ClockBurstEdges` proves 15 falling and 15 rising
edges. No bug is claimed here. The unsent item 16 and the all-high item 0 may
be room for a 17-pulse variant, and neither the comment nor the code settles
which count is meant.

`itoa` comes from avr-libc and is not part of this firmware. The model
assumes this conversion: bases 2 to 36, lowercase letters for digits above
9, most significant digit first, and a terminating NUL. Its input is a
non-negative byte value, so the model has no sign case.

## Model

| member | source | states |
|---|---|---|
| Snes.Driver.constructor | Firmware/src/SNES.c:95-114 | the static driver record before Init: all fields zero, a 1-item latch table and a 17-item clock table of zero items, nothing sent |
| Snes.Driver.Init | Firmware/src/SNES.c:124-187 | after Init the driver is Valid: input word 0xffff, run flag and IO-port bits false, both channel configurations and both item tables as specified; the bus gains exactly data-line setup, latch install, clock install, task spawn, in that order |
| Snes.Driver.FillClockItems | Firmware/src/SNES.c:170-181 | item 0 plus the loop over indices 1..16 leave the clock table equal to the lead item followed by sixteen pulse items |
| Snes.IsClockTable | Firmware/src/SNES.c:175-181 | any 17-item table with the lead item first and pulses at indices 1..16 is the clock table |
| Snes.Driver.DeInit | Firmware/src/SNES.c:193-196 | only the run flag changes, it becomes false, and a Valid driver stays Valid |
| Snes.Driver.GetInputData | Firmware/src/SNES.c:202-205 | returns the stored input word in any state (0 in the zeroed record before Init), without changing state; on a Valid driver that word is 0xffff |
| Snes.Driver.SendLatch | Firmware/src/SNES.c:275-278 | one write on channel 0 of exactly the one latch item, not waiting for the end of transmission |
| Snes.Driver.SendClock | Firmware/src/SNES.c:270-273 | one write on channel 1 of the first 16 clock items, waiting for the end of transmission |
| Snes.Driver.TaskDelay | Firmware/src/SNES.c:264-264 | one pause of ms / portTICK_PERIOD_MS ticks, the division truncating |
| Snes.Driver.StopAt | Firmware/src/SNES.c:193-196 | the other task's DeInit: the run flag is cleared exactly at the point the stop request names, and Valid is kept |
| Snes.Driver.Poll | Firmware/src/SNES.c:260-265 | one pass through the loop body adds one poll cycle (latch, clock, pause) to the bus whatever happens to the flag meanwhile; the flag is cleared exactly when the stop lands inside this body |
| Snes.Driver.ReadInputThread | Firmware/src/SNES.c:256-268 | a stop before the flag test of iteration k gives exactly k poll cycles (none when k is 0); a stop inside the body of iteration k lets that iteration complete, giving k+1 cycles; then the task deletes itself, the driver stays Valid and ends stopped |
| Snes.PollOrder | Firmware/src/SNES.c:260-265 | in n poll cycles, step 3k is the latch write, 3k+1 the clock write and 3k+2 the pause, for every k < n |
| Snes.LatchPulse | Firmware/src/SNES.c:144-154 | the latch line is low, then high for exactly 12 ticks, then low: one rising and one falling edge |
| Snes.ClockPulseShape | Firmware/src/SNES.c:175-181 | each clock item 1..16 has period 12 ticks, is high for 6 of them (50% duty), and is low first |
| Snes.ClockBurstTicks | Firmware/src/SNES.c:270-273 | the 16 sent clock items play out as 11 high ticks followed by 15 pulses |
| Snes.ClockBurstShape | Firmware/src/SNES.c:270-273 | the clock burst lasts 11 + 15*12 = 191 ticks, with its level at every tick given in closed form, and its last tick equals the idle level |
| Snes.ClockFirstEdge | Firmware/src/SNES.c:163-173 | the clock line is high from idle through tick 11 and low at tick 12, so its first transition is high to low |
| Snes.ClockBurstEdges | Firmware/src/SNES.c:270-273 | the clock line has exactly 15 falling and 15 rising edges per burst |
| Snes.TrainAt | Firmware/src/SNES.c:177-180 | n pulses last 12n ticks, low in the first half and high in the second half of every 12 |
| Snes.TrainEnds | Firmware/src/SNES.c:177-180 | a train of pulses starts low and ends high |
| Snes.TrainEdges | Firmware/src/SNES.c:177-180 | n pulses back to back hold n rises and n-1 falls |
| Snes.ExpandPulses | Firmware/src/SNES.c:177-180 | n pulse items play out as n pulses |
| Snes.HighFramedTrainEdges | Firmware/src/SNES.c:170-181 | a train between high stretches has exactly one fall and one rise per pulse |
| Baud.BaudRate | firmware/src/uart.h:19-19 | BAUDRATE + 1 is the truncated quotient F_CPU / (BAUD*16 mod 2^32) when that quotient is at least 1; when it is 0 the unsigned subtraction wraps to 2^32-1 |
| Baud.HighByte | firmware/src/uart.c:13-13 | for a divisor below 65536, the byte written to UBRR0H is the divisor shifted right by 8: 256*H <= divisor < 256*H + 256 |
| Baud.LowByte | firmware/src/uart.c:14-14 | the byte written to UBRR0L is congruent to the divisor modulo 256, i.e. its low 8 bits |
| Baud.BaudRateBounds | firmware/src/uart.h:19-19 | when 16*BAUD fits in 32 bits and is at most F_CPU, (BAUDRATE+1)*16*BAUD <= F_CPU < (BAUDRATE+2)*16*BAUD |
| Baud.BaudRateUnderflow | firmware/src/uart.h:19-19 | when F_CPU < 16*BAUD, the quotient is 0 and BAUDRATE wraps to 2^32-1 |
| Baud.DefaultBaudRate | firmware/src/uart.h:13-19 | with the defaults, BAUDRATE = 16000000 / 921600 - 1 = 16; its high byte is 0 and its low byte 16 |
| Baud.ByteSplit | firmware/src/uart.c:13-14 | for a divisor below 65536, 256 * high byte + low byte gives the divisor back |
| Itoa.Digits | firmware/src/uart.c:26-26 | at least one digit, every digit below the base, no leading zero |
| Itoa.Text | firmware/src/uart.c:26-26 | one character per digit, each a digit character and none NUL (no sign) |
| Itoa.DigitsValue | firmware/src/uart.c:26-26 | the digits, read most significant first, give the value back |
| Itoa.TextRoundTrip | firmware/src/uart.c:26-26 | parsing the text in the same base gives the value back |
| Itoa.DigitsFit | firmware/src/uart.c:23-26 | a value has at most k digits exactly when it is below base^k |
| Itoa.ByteDigitsFromBase3 | firmware/src/uart.c:23-26 | in bases 3..36 a byte has at most 6 digits, so text plus NUL fits in the 7-byte buffer |
| Itoa.ByteDigitsBase2 | firmware/src/uart.c:23-26 | in base 2 a byte has at most 6 digits exactly when it is below 64 |
| Itoa.ByteDigits | firmware/src/uart.c:22-26 | in any base a byte has at most 8 digits |
| Itoa.Base2ByteNeedsNine | firmware/src/uart.c:23-26 | 255 in base 2 needs 9 bytes with its NUL, two more than the buffer holds |
| Itoa.Convert | firmware/src/uart.c:26-26 | writes the text and a NUL at the start of the buffer, leaves the rest unchanged, and returns the buffer |
| Uart.EnableKeepsOtherBits | firmware/src/uart.c:16-17 | after the two ORs a bit of UCSR0B is set exactly when it is RXEN0, TXEN0, or was set before |
| Uart.FrameFormatBits | firmware/src/uart.c:18-18 | UCSR0C has exactly the UCSZ01 and UCSZ00 bits set |
| Uart.UpTo | firmware/src/uart.c:38-43 | the longest NUL-free prefix: it stops at the first NUL, and at the end only when there is none |
| Uart.UpToStops | firmware/src/uart.c:38-43 | a NUL-free text followed by a NUL is cut back to that text, whatever follows |
| Uart.TerminatedText | firmware/src/uart.c:26-26 | a buffer holding text and a NUL at its start reads as that text |
| Uart.ListingSnoc | firmware/src/uart.c:25-28 | adding an element appends one delimiter and that element's text |
| Uart.ListingDelimiters | firmware/src/uart.c:25-28 | with a delimiter that is not a digit, the listing of n >= 1 elements holds exactly n-1 delimiters |
| Uart.SplitListing | firmware/src/uart.c:25-28 | splitting the listing at the delimiter gives each element's text, in index order |
| Uart.ListingRoundTrip | firmware/src/uart.c:25-28 | splitting the listing and parsing each field gives the array back |
| Uart.Uart.constructor | firmware/src/uart.h:13-18 | F_CPU and BAUD are the given values or the defaults; registers are zero and nothing is sent |
| Uart.Uart.Init | firmware/src/uart.c:12-19 | UBRR0H and UBRR0L hold bits 8..15 and 0..7 of BAUDRATE (whole divisor when below 65536); UCSR0B gains RXEN0 and TXEN0; UCSR0C is the 8-bit frame setting |
| Uart.Uart.Putc | firmware/src/uart.c:32-35 | exactly the byte c is appended to the output |
| Uart.Uart.Puts | firmware/src/uart.c:38-43 | the output gains the bytes of s up to and without the first NUL |
| Uart.Uart.PrintWith | firmware/src/uart.c:22-29 | with a scratch buffer long enough for every text, the output gains the listing of the first size elements |
| Uart.Uart.PrintArray | firmware/src/uart.c:22-29 | with the 7-byte buffer, and every text below 7 characters, the output gains each element's text in index order, with a delimiter strictly between elements; nothing when size <= 0 |
| Uart.Uart.PrintArrayWide | firmware/src/uart.c:22-29 | the same output with a 9-byte buffer, for every byte array and every base 2..36 |

## Left out

- `Firmware/src/WiFi.c` is not part of this model: it holds ESP-IDF event callbacks, SmartConfig and NVS setup, with no local logic.
- GPIO numbers and the pull-up of the data line are not modelled. `ConfigureDataInput` stands for the `gpio_config` call.
- ESP_ERROR_CHECK aborting on a failed `gpio_config` is not modelled. Driver calls always succeed.
- The real-time length of a tick is not modelled: `clk_div` 80 is recorded, but its effect on the APB clock is not.
- The timing between the latch and clock channels is not modelled. They run in parallel on the hardware.
- The RMT semantics of a zero-duration half, which ends a transmission, is modelled as zero ticks only.
- Snes.Driver.ReadInputThread: a DeInitSNES that lands before the task sets the run flag (SNES.c line 258) is overwritten by that assignment, and the task then runs on. The model does not capture that case: every stop request lands after line 258. A stop between line 258 and the first test at line 260 is modelled, as `StopRequest(0, BeforeTest)` with no poll cycle.
- Snes.Driver.ReadInputThread: a reader that never stops is not modelled. The stop request always names a finite iteration.
- `SNES.c` never reads the serial data line, keeps no vote over samples and does no re-framing for pass-through. `u16InputData` is never written after Init, and the IO-port bits are never used.
- The `UDRE0` busy-wait in `uartPutc` is left out; the model just appends the byte.
- avr-libc `itoa` is assumed, not modelled from source. Its negative-value branch is left out, because only byte values reach it.
- `util/setbaud.h` and `avr/interrupt.h` are not part of this model.
- UART register values at power-on are taken as zero by the constructor. Init's contract holds for any previous UCSR0B.
- Uart.Uart.Puts: takes a sequence containing a NUL, not a raw pointer; a string without a terminator is outside the model.

## Findings

| source | as written | input that shows it | evidently intended | confidence | as-written member | corrected member |
|---|---|---|---|---|---|---|
| firmware/src/uart.c:23-26 | `char tmp[7]` receives `itoa(array[i], tmp, base)` | base 2 and any element of 64 or more; 255 becomes "11111111" plus NUL, 9 bytes | a scratch buffer of at least 9 bytes, which holds any byte in any base 2..36 | medium, not executed | Uart.Uart.PrintArray (its precondition is exactly the in-bounds condition) with Itoa.ByteDigitsBase2 and Itoa.Base2ByteNeedsNine | Uart.Uart.PrintArrayWide, using Itoa.ByteDigits |
