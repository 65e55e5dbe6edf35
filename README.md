# RFID door controller (rfid.c) in Dafny

This project models the firmware of a PIC16F877A badge-reader door lock. The
firmware drives a 16x2 character display over a 4-bit bus (RS, EN, D4..D7 on
port B) and reads badge identifiers from a serial reader at 9600 baud. It
compares each identifier with a compiled-in, NULL-terminated allow-list. On a
match it energises the door relay on RB0 for three seconds; otherwise it shows
a refusal for two seconds. Either way it returns to the "Scan Badge..." prompt.

The modules follow the structure of the program:

- `Bytes`: registers, pin levels, C characters and NUL-terminated strings. It
  also holds the shift-and-mask arithmetic that splits a byte over D4..D7.
- `Display`: what the display controller observes. It latches one nibble per
  falling edge of EN, high nibble first.
- `Trace`: the board's observable events, which are nibble latches, delays and
  relay writes. It also holds the driver-level actions (instruction, string,
  relay write, millisecond delay) and how each action lowers to events.
- `Access`: which received characters form an identifier, how many received
  characters one identifier consumes, the allow-list and its lookup.
- `Serial`: the USART constants, the baud-rate divisor, and what a reception
  looks like. A reception is the RCSTA status and the RCREG character.
- `Firmware`: the class `Board`, one method per C function. It holds the pin
  latches, the special-function registers, the global buffer `rfid_tag`
  (an array), the display state, the pending receptions, and the event log.
  A ghost history of actions explains that log.

The main results are these:

- Every badge identifier is the next ten characters in `0`..`9`/`A`..`F` of
  the stream. The rest of the stream is left exactly where that identifier
  ended.
- A lookup authorises exactly the identifiers "1A2B3C4D5E" and "A1B2C3D4E5".
  The entry "5F6G7H8I9J" can never be assembled, and one corrupted character
  never turns an allow-listed identifier into another one.
- Over any run of `main`, the relay pin is driven low once at boot. After that
  it is driven high and then low once per authorised badge, in order, and
  nothing else writes it.

`UART_Read` (rfid.c:172-179) resets the receiver on an overrun or framing
error, but still returns RCREG, and the model does the same: the erroneous
character is not dropped. It goes through the same alphabet filter as any
other character.

## Model

| member | source | states |
|---|---|---|
| Bytes.NibbleRoundTrip | rfid.c:109-121 | bits 4..7 and then bits 0..3 put on D4..D7 carry `x / 16` and `x % 16`, which recombine to exactly the byte sent |
| Bytes.BitOf | rfid.c:109-121 | defines `(x >> k) & 0x01` as the remainder by 2 of `k` halvings of `x` (characterised by `BinaryDigits`) |
| Bytes.BinaryDigits | rfid.c:109-121 | bits 0..7 extracted this way are the binary digits of the byte: weighted by 1, 2, ..., 128 they sum back to it |
| Bytes.SplitSixteen | rfid.c:109-121 | sixteen times a nibble plus a nibble has those nibbles as quotient and remainder by 16 |
| Bytes.HighLines | rfid.c:109-112 | the levels put on D4..D7 from bits 4..7 form the upper half `x / 16` of the byte |
| Bytes.LowLines | rfid.c:118-121 | the levels put on D4..D7 from bits 0..3 form the lower half `x % 16` of the byte |
| Bytes.CLen | rfid.c:151-155 | the length of a C string is the index of its first NUL: every earlier character is non-NUL |
| Bytes.CStr | rfid.c:151-155 | the characters a C string stands for are a prefix of the storage that holds no NUL |
| Bytes.CStrOfTerminated | rfid.c:70 | a string literal, stored with its terminator, reads back as exactly its text whatever follows it |
| Display.LatchPair | rfid.c:107-126 | the two latches of a byte make a controller that was between bytes execute that byte, and it is between bytes again afterwards |
| Trace.Transfer | rfid.c:113-125 | one byte transfer is six events whose two latches carry the same RS and the high and low halves of the byte, and it never writes the relay |
| Trace.StrEventsSnoc | rfid.c:152-154 | writing one more character appends exactly that character's data transfer to the events |
| Trace.LowerAllAppend | rfid.c:65-78 | the events of consecutive actions are the events of each action, concatenated |
| Trace.RelayActionsAppend | rfid.c:65-78 | the relay writes of consecutive actions are those of each action, in order |
| Trace.RelayActionsNone | rfid.c:96-104 | actions without a relay statement write no relay level |
| Trace.RelayLevelsAppend | rfid.c:65-78 | the relay-pin events of consecutive event runs are those of each run, in order |
| Trace.StrEventsNoRelay | rfid.c:129-155 | writing text to the display never writes the relay pin |
| Trace.LoweredRelays | rfid.c:107-161 | the display driver adds no relay-pin write and loses none: the pin sees exactly the relay statements, in order |
| Access.IsTagChar | rfid.c:202-203 | defines the test that keeps a character: `0`..`9` or `A`..`F` |
| Access.TagAlphabet | rfid.c:202-203 | a received character is kept iff it is one of `0123456789ABCDEF` |
| Access.Accepted | rfid.c:202-203 | the kept characters are all in `0`..`9`/`A`..`F` and are no more than those received |
| Access.AcceptedAppend | rfid.c:200-207 | filtering a stream piece by piece keeps the same characters as filtering it whole |
| Access.Consumed | rfid.c:200-207 | reading `Consumed(s, m)` characters keeps exactly `m`, and the last one read is kept |
| Access.ConsumedSplit | rfid.c:200-207 | the characters read keep the first `m` accepted characters, and the unread rest holds all the others |
| Access.ReadStep | rfid.c:201-205 | reading one character moves it from the unread part to the kept part exactly when it is in the alphabet |
| Access.ConsumedUnique | rfid.c:200-207 | the only read count that keeps `m` characters and ends on a kept one is `Consumed(s, m)` |
| Access.KeptGrows | rfid.c:200-207 | reading on up to a kept character keeps strictly more characters |
| Access.CollectedTag | rfid.c:200-208 | when the collection loop stops, it has read exactly `Consumed(s, 10)` characters and kept the first ten accepted ones |
| Access.NextTag | rfid.c:200-208 | an assembled identifier has ten characters, all in `0`..`9`/`A`..`F` |
| Access.Sentinel | rfid.c:54-59 | the first NULL of a terminated table is preceded only by strings |
| Access.Authorized | rfid.c:211-213 | defines authorisation: the identifier equals an entry before the table's first NULL (against which `FindTag` is proved; `AuthorizedIff` spells it out for the compiled-in table) |
| Access.FindTag | rfid.c:211-225 | the scan up to NULL with `strcmp` reports a match iff some entry before NULL equals the identifier |
| Access.AllowListShape | rfid.c:54-59 | the allow-list is terminated, and its NULL is its fourth entry |
| Access.AuthorizedIff | rfid.c:54-59 | an identifier is authorised iff it is one of the three strings of the allow-list |
| Access.UnreachableEntry | rfid.c:56 | no stream assembles "5F6G7H8I9J", because G, H, I and J are filtered out |
| Access.AssembledAuthorized | rfid.c:200-225 | an assembled identifier is authorised iff it is "1A2B3C4D5E" or "A1B2C3D4E5" |
| Access.SingleErrorRefused | rfid.c:54-59 | changing any one character of an allow-listed identifier yields an identifier that is refused |
| Serial.PayloadSuffix | rfid.c:178 | the characters of the unread receptions are the unread characters |
| Serial.HasError | rfid.c:174 | `RCSTA & 0x06` is non-zero iff the status modulo 8 is at least 2 |
| Serial.StatusAfterRead | rfid.c:174-177 | after a read no error flag is set, and an error-free status is left unchanged |
| Serial.ReadClearsErrors | rfid.c:174-177 | after a read neither error flag is set, a second reset changes nothing, and an error-free status is untouched |
| Serial.BaudDivisor | rfid.c:166 | the divisor plus one is the largest number of 16-sample bit times per second that the oscillator can supply |
| Serial.DivisorFitsRegister | rfid.c:166 | at 20 MHz and 9600 baud the divisor is 129, fits SPBRG, and the rate it produces is within 0.2% of the requested one |
| Firmware.OutcomeRelay | rfid.c:212-232 | after a lookup the relay is written high and then low if the badge is authorised, and not at all otherwise |
| Firmware.GrantedRelay | rfid.c:215-222 | the granted branch writes the relay exactly twice: high, then low |
| Firmware.RefusedRelay | rfid.c:228-232 | the refused branch never writes the relay |
| Firmware.Outcome | rfid.c:212-232 | both branches start by showing their own message and end by showing "Scan Badge..." |
| Firmware.MessageNoRelay | rfid.c:158-161 | clearing the screen and showing a message never writes the relay |
| Firmware.BootRelay | rfid.c:65-93 | booting writes the relay exactly once, switching it off |
| Firmware.Remaining | rfid.c:75-77 | each pass of the main loop uses up exactly ten accepted characters of the stream |
| Firmware.Verdicts | rfid.c:75-77 | there is one lookup verdict per pass of the main loop |
| Firmware.PassStep | rfid.c:75-77 | pass `j` reads from where pass `j - 1` stopped and adds one verdict |
| Firmware.PassesRelay | rfid.c:75-77 | over any number of passes, the relay goes high and then low once per authorised badge, and the door is never left open |
| Firmware.PassRelayStep | rfid.c:195-233 | one more pass adds one high-low pulse if its badge is authorised, and none otherwise |
| Firmware.PassesPinLevels | rfid.c:75-77 | the relay pin itself sees one high-low pulse per authorised badge, and nothing else |
| Firmware.RunPinLevels | rfid.c:65-78 | over a whole run the pin is driven low once at boot, then pulsed once per authorised badge, in order |
| Firmware.Board.constructor | rfid.c:62 | a fresh board: empty display, no traffic, an 11-character `rfid_tag` buffer |
| Firmware.Board.DelayUs | rfid.c:114 | a microsecond delay is logged as a delay and changes nothing else |
| Firmware.Board.DelayMs | rfid.c:71 | a millisecond delay is logged as a delay and changes nothing else |
| Firmware.Board.SetRelay | rfid.c:92 | a relay statement sets RB0 and logs one relay-pin write |
| Firmware.Board.PulseEnable | rfid.c:113-116 | a pulse on EN makes the controller latch RS and D4..D7, and leaves EN low |
| Firmware.Board.SendByte | rfid.c:107-126 | the two nibble transfers make the controller execute the byte, with the six events of one transfer logged |
| Firmware.Board.LcdCommand | rfid.c:107-126 | an instruction clears the text when it is "clear display" and leaves it unchanged otherwise |
| Firmware.Board.LcdChar | rfid.c:129-148 | a character is appended to the display text |
| Firmware.Board.LcdString | rfid.c:151-155 | the display receives exactly the characters before the first NUL, one data transfer each |
| Firmware.Board.WriteChars | rfid.c:152-154 | the loop appends the characters before the NUL to the display text and logs their transfers |
| Firmware.Board.LcdStringLiteral | rfid.c:70 | writing a literal puts exactly its text on the display |
| Firmware.Board.LcdClear | rfid.c:158-161 | the screen is empty afterwards, and the clear is followed by its 2 ms settle delay |
| Firmware.Board.ShowMessage | rfid.c:69-70 | after a clear and a string, the display shows exactly that string |
| Firmware.Board.LcdInit | rfid.c:96-104 | the power-up wait and the five set-up instructions leave the display empty and between bytes |
| Firmware.Board.UartInit | rfid.c:164-169 | SPBRG is 129 and TXSTA and RCSTA enable the transmitter and the receiver |
| Firmware.Board.UartRead | rfid.c:172-179 | the next received character is returned even after an error; the error flags are reset, and the reception is used up |
| Firmware.Board.UartWrite | rfid.c:182-185 | one character is loaded into TXREG and sent |
| Firmware.Board.UartWriteText | rfid.c:188-192 | exactly the characters before the NUL are sent, in order |
| Firmware.Board.SystemInit | rfid.c:81-93 | port B is output, RC6 is output and RC7 is input, the display and the UART are set up, and the relay is off |
| Firmware.Board.PowerOn | rfid.c:65-73 | after boot the relay is off, the display shows "Scan Badge...", and the history is the boot sequence |
| Firmware.Board.CollectChar | rfid.c:201-206 | a character is stored at the next free index exactly when it is in the alphabet, and no other cell of the buffer changes |
| Firmware.Board.CollectTag | rfid.c:196-208 | the buffer holds the next identifier of the stream with its NUL, and exactly the characters up to it are read |
| Firmware.Board.ReadTagChars | rfid.c:200-207 | the loop stops after exactly ten kept characters, on a kept one; the buffer holds the characters the filter kept from what was read, and the rest of the stream is unread |
| Firmware.Board.LookUp | rfid.c:211-225 | the buffer is authorised iff it equals an allow-list entry |
| Firmware.Board.Respond | rfid.c:212-232 | the right branch runs for the verdict; the relay is off after an opening and untouched after a refusal |
| Firmware.Board.Grant | rfid.c:215-222 | the granted message is shown, the relay is pulsed around the 3 s delay, and the prompt is shown again |
| Firmware.Board.Refuse | rfid.c:228-232 | the refusal stays on screen for 2 s, then the prompt is shown again; the relay is untouched |
| Firmware.Board.CheckRfid | rfid.c:195-233 | one pass reads the next identifier, and opens the door iff that identifier is authorised; it ends on the prompt |
| Firmware.Board.ServeBadges | rfid.c:75-77 | `n` passes consume `n` identifiers in order, with one granted or refused response each, and leave the relay off |
| Firmware.Board.Run | rfid.c:65-78 | a run of `main` is the boot sequence followed by one response per identifier of the stream |

## Left out

- Configuration fuses (rfid.c:18-25): these are settings for the programmer, not behaviour.
- The interrupt routine (rfid.c:236-238): it is empty, and no interrupt is enabled.
- Real time: `__delay_ms` and `__delay_us` are logged as events with their durations. Time itself and the RCIF and TRMT busy-waits are not modelled.
- Firmware.Board.UartRead: requires a pending reception. The source waits on RCIF forever when none comes, and a hang has no outcome to model.
- Firmware.Board.CheckRfid: requires ten more accepted characters in the stream, for the same reason: without them the collection loop never ends.
- Firmware.Board.UartWrite: the transmitter is assumed idle. TRMT is not modelled, and the wait on it is not either.
- Firmware.Board.Run: the endless `while(1)` loop is cut after `n` passes. Nothing happens after a pass that the next pass does not repeat.
- The display controller: only "clear display" changes the text in this model. Cursor movement, the two-line layout, the entry mode and the controller's own 8-bit start-up mode are not modelled.
- The write of 0 to RCSTA in the error reset (rfid.c:175) lasts only until the next statement. Its effect on the receiver hardware (clearing the overrun latch) is represented only by the error flags being clear afterwards.
- Pins and registers the firmware never touches (RB3, the other bits of TRISC) are not modelled. PIR1 is only polled for RCIF (rfid.c:173); that wait is left out, as the real-time line says.
