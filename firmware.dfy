/**
 * The firmware of rfid.c running on its board. `Board` holds the PIC's pin
 * latches and registers, the global identifier buffer `rfid_tag`, and what
 * the attached devices observe: the display controller's state, the bytes
 * still to come from the badge reader, the bytes sent out, and a log of the
 * timed events (display latches, delays, relay writes).
 */
module Firmware {
  import opened Bytes
  import opened Display
  import opened Trace
  import opened Access
  import opened Serial

  const Splash: seq<CChar> := "Systeme Securite"
  const ScanPrompt: seq<CChar> := "Scan Badge..."
  const GrantedText: seq<CChar> := "Acces Autorise"
  const RefusedText: seq<CChar> := "Acces Refuse"

  /** Splash screen time (rfid.c:71). */
  const SplashMs: nat := 2000
  /** Time the relay holds the door open (rfid.c:218). */
  const UnlockMs: nat := 3000
  /** Time the refusal stays on screen (rfid.c:230). */
  const RefusedMs: nat := 2000
  /** Wait for the display to power up (rfid.c:97). */
  const PowerUpMs: nat := 15
  /** Wait after "clear display" (rfid.c:103, 160). */
  const ClearSettleMs: nat := 2

  /** LCD_Clear: the clear instruction, then its settle time (rfid.c:158-161). */
  const ClearActions: seq<Action> := [Command(ClearDisplay), Pause(ClearSettleMs)]

  /** LCD_Init: 4-bit mode, 2 lines 5x7, display on cursor off, entry to the right, clear (rfid.c:96-104). */
  const InitActions: seq<Action> :=
    [Pause(PowerUpMs), Command(0x02), Command(0x28), Command(0x0C), Command(0x06),
     Command(ClearDisplay), Pause(ClearSettleMs)]

  /** System_Init: the display set-up, then the relay switched off (rfid.c:81-93). */
  const SystemActions: seq<Action> := InitActions + [Relay(0)]

  /** A clear screen followed by `text`, the pair of calls every message of rfid.c is shown with. */
  function Message(text: seq<CChar>): seq<Action>
  {
    ClearActions + [Str(text)]
  }

  /** `main` up to its endless loop: System_Init, the splash screen, then the idle prompt (rfid.c:65-73). */
  const BootActions: seq<Action> :=
    SystemActions + Message(Splash) + [Pause(SplashMs)] + Message(ScanPrompt)

  /** The granted branch of Check_RFID (rfid.c:215-222). */
  const GrantedActions: seq<Action> :=
    Message(GrantedText) + [Relay(1), Pause(UnlockMs), Relay(0)] + Message(ScanPrompt)

  /** The refused tail of Check_RFID (rfid.c:228-232). */
  const RefusedActions: seq<Action> :=
    Message(RefusedText) + [Pause(RefusedMs)] + Message(ScanPrompt)

  /** What Check_RFID does once it has looked the identifier up (rfid.c:212-232). */
  function Outcome(authorised: bool): (r: seq<Action>)
    ensures |r| >= 6
    ensures r[..3] == Message(if authorised then GrantedText else RefusedText)
    ensures r[|r| - 3..] == Message(ScanPrompt)
  {
    if authorised then GrantedActions else RefusedActions
  }

  /*
   * The histories the firmware's straight-line code builds one call at a
   * time, regrouped as the action lists above. They are separate lemmas only
   * to keep the verification conditions of the methods that use them small.
   */

  lemma InitSteps(t0: seq<Action>)
    ensures t0 + [Pause(PowerUpMs)] + [Command(0x02)] + [Command(0x28)] + [Command(0x0C)] + [Command(0x06)]
            + [Command(ClearDisplay)] + [Pause(ClearSettleMs)] == t0 + InitActions
  {
  }

  lemma SystemSteps(t0: seq<Action>)
    ensures t0 + InitActions + [Relay(0)] == t0 + SystemActions
  {
  }

  lemma MessageSteps(t0: seq<Action>, text: seq<CChar>)
    ensures t0 + ClearActions + [Str(text)] == t0 + Message(text)
  {
  }

  lemma BootSteps(t0: seq<Action>)
    ensures t0 + SystemActions + Message(Splash) + [Pause(SplashMs)] + Message(ScanPrompt) == t0 + BootActions
  {
  }

  lemma GrantedSteps(t0: seq<Action>)
    ensures t0 + Message(GrantedText) + [Relay(1)] + [Pause(UnlockMs)] + [Relay(0)]
            + Message(ScanPrompt) == t0 + GrantedActions
  {
  }

  lemma RefusedSteps(t0: seq<Action>)
    ensures t0 + Message(RefusedText) + [Pause(RefusedMs)] + Message(ScanPrompt) == t0 + RefusedActions
  {
  }

  lemma CycleStep(t0: seq<Action>, done: seq<Action>, next: seq<Action>)
    ensures t0 + done + next == t0 + (done + next)
  {
  }

  /** None of the messages contains a NUL, so each string literal ends where its text ends. */
  lemma MessagesPlain()
    ensures '\0' !in Splash && '\0' !in ScanPrompt && '\0' !in GrantedText && '\0' !in RefusedText
  {
  }

  /** Whether the lookup authorises `id` against the compiled-in table. */
  predicate Admitted(id: seq<CChar>)
  {
    assert Terminated(AuthorizedTags) by { assert AuthorizedTags[3] == Null; }
    Authorized(AuthorizedTags, id)
  }

  /**
   * The relay is written only on the authorised branch, first high and then
   * low; the refused branch never writes it.
   */
  lemma OutcomeRelay(authorised: bool)
    ensures RelayActions(Outcome(authorised)) == if authorised then [1, 0] else []
  {
    if authorised {
      GrantedRelay();
    } else {
      RefusedRelay();
    }
  }

  /** The granted branch drives the relay high, then low. */
  lemma GrantedRelay()
    ensures RelayActions(GrantedActions) == [1, 0]
  {
    var shown, door := Message(GrantedText), [Relay(1), Pause(UnlockMs), Relay(0)];
    assert RelayActions(door) == [1, 0] by {
      RelayActionsSingle(Relay(1));
      RelayActionsSingle(Pause(UnlockMs));
      RelayActionsSingle(Relay(0));
      RelayActionsAppend([Pause(UnlockMs)], [Relay(0)]);
      RelayActionsAppend([Relay(1)], [Pause(UnlockMs)] + [Relay(0)]);
      assert door == [Relay(1)] + ([Pause(UnlockMs)] + [Relay(0)]);
    }
    assert RelayActions(shown + door) == [1, 0] by {
      MessageNoRelay(GrantedText);
      RelayActionsAppend(shown, door);
    }
    MessageNoRelay(ScanPrompt);
    RelayActionsAppend(shown + door, Message(ScanPrompt));
  }

  /** The refused branch leaves the relay alone. */
  lemma RefusedRelay()
    ensures RelayActions(RefusedActions) == []
  {
    var shown := Message(RefusedText);
    MessageNoRelay(RefusedText);
    MessageNoRelay(ScanPrompt);
    RelayActionsSingle(Pause(RefusedMs));
    RelayActionsAppend(shown, [Pause(RefusedMs)]);
    RelayActionsAppend(shown + [Pause(RefusedMs)], Message(ScanPrompt));
  }

  /** Showing a message never writes the relay. */
  lemma MessageNoRelay(text: seq<CChar>)
    ensures RelayActions(Message(text)) == []
  {
    RelayActionsAppend(ClearActions, [Str(text)]);
    RelayActionsSingle(Str(text));
    RelayActionsAppend([Command(ClearDisplay)], [Pause(ClearSettleMs)]);
    RelayActionsSingle(Command(ClearDisplay));
    RelayActionsSingle(Pause(ClearSettleMs));
  }

  /** The receptions still unread after `n` passes of the badge loop over `rx`. */
  function Remaining(rx: seq<Rx>, n: nat): (r: seq<Rx>)
    requires TagLength * n <= |Accepted(Payload(rx))|
    ensures |Accepted(Payload(r))| == |Accepted(Payload(rx))| - TagLength * n
    decreases n
  {
    if n == 0 then rx
    else
      var prev := Remaining(rx, n - 1);
      var k := Consumed(Payload(prev), TagLength);
      ConsumedSplit(Payload(prev), TagLength);
      PayloadSuffix(prev, k);
      prev[k..]
  }

  /** The lookup verdicts of the first `n` identifiers read from `rx`, in order. */
  function Verdicts(rx: seq<Rx>, n: nat): (v: seq<bool>)
    requires TagLength * n <= |Accepted(Payload(rx))|
    ensures |v| == n
    decreases n
  {
    if n == 0 then [] else Verdicts(rx, n - 1) + [Admitted(NextTag(Payload(Remaining(rx, n - 1))))]
  }

  /**
   * Pass `j` of the badge loop reads an identifier from where the first `j`
   * passes stopped, and adds its verdict.
   */
  lemma PassStep(rx: seq<Rx>, n: nat, j: nat)
    requires TagLength * n <= |Accepted(Payload(rx))| && j < n
    ensures TagLength * (j + 1) <= |Accepted(Payload(rx))|
    ensures TagLength <= |Accepted(Payload(Remaining(rx, j)))|
    ensures Remaining(rx, j + 1)
            == Remaining(rx, j)[Consumed(Payload(Remaining(rx, j)), TagLength)..]
    ensures Verdicts(rx, j + 1)
            == Verdicts(rx, j) + [Admitted(NextTag(Payload(Remaining(rx, j))))]
  {
  }

  /** The actions of passes of the badge loop whose lookups gave the verdicts `v`. */
  function Passes(v: seq<bool>): seq<Action>
  {
    if v == [] then [] else Passes(v[..|v| - 1]) + Outcome(v[|v| - 1])
  }

  lemma PassesSnoc(v: seq<bool>, b: bool)
    ensures Passes(v + [b]) == Passes(v) + Outcome(b)
  {
    assert (v + [b])[..|v|] == v;
  }

  /** How many of the verdicts `v` authorise. */
  function Openings(v: seq<bool>): (g: nat)
    ensures g <= |v|
  {
    if v == [] then 0 else Openings(v[..|v| - 1]) + (if v[|v| - 1] then 1 else 0)
  }

  /** `k` door openings: the relay driven high and then low, `k` times. */
  function Pulses(k: nat): (r: seq<Bit>)
    ensures |r| == 2 * k
  {
    if k == 0 then [] else Pulses(k - 1) + [1, 0]
  }

  /**
   * Over any number of passes the relay is driven high exactly once per
   * authorised badge, and each time driven low again before anything else
   * touches it: the door is never left open.
   */
  lemma {:induction false} PassesRelay(v: seq<bool>)
    ensures RelayActions(Passes(v)) == Pulses(Openings(v))
    decreases |v|
  {
    if v != [] {
      var init := v[..|v| - 1];
      PassesRelay(init);
      PassRelayStep(Passes(init), v[|v| - 1], Openings(init));
    }
  }

  /** One more pass adds one door opening if its badge was authorised, and none otherwise. */
  lemma PassRelayStep(done: seq<Action>, authorised: bool, g: nat)
    requires RelayActions(done) == Pulses(g)
    ensures RelayActions(done + Outcome(authorised)) == Pulses(if authorised then g + 1 else g)
  {
    RelayActionsAppend(done, Outcome(authorised));
    OutcomeRelay(authorised);
  }

  /** The same holds of the writes to the relay pin among the board's events. */
  lemma PassesPinLevels(v: seq<bool>)
    ensures RelayLevels(LowerAll(Passes(v))) == Pulses(Openings(v))
  {
    PassesRelay(v);
    LoweredRelays(Passes(v));
  }

  /** Booting writes the relay once, switching it off. */
  lemma BootRelay()
    ensures RelayActions(BootActions) == [0]
  {
    var shown := Message(Splash) + [Pause(SplashMs)] + Message(ScanPrompt);
    assert RelayActions(SystemActions) == [0] by {
      RelayActionsNone(InitActions);
      RelayActionsSingle(Relay(0));
      RelayActionsAppend(InitActions, [Relay(0)]);
    }
    assert RelayActions(shown) == [] by {
      MessageNoRelay(Splash);
      MessageNoRelay(ScanPrompt);
      RelayActionsSingle(Pause(SplashMs));
      RelayActionsAppend(Message(Splash), [Pause(SplashMs)]);
      RelayActionsAppend(Message(Splash) + [Pause(SplashMs)], Message(ScanPrompt));
    }
    assert BootActions == SystemActions + shown;
    RelayActionsAppend(SystemActions, shown);
  }

  /**
   * Over a whole run of `main` the relay pin is first driven low, then high
   * and low again once per authorised badge, in the order the badges came.
   */
  lemma RunPinLevels(v: seq<bool>)
    ensures RelayLevels(LowerAll(BootActions + Passes(v))) == [0] + Pulses(Openings(v))
  {
    BootRelay();
    PassesRelay(v);
    RelayActionsAppend(BootActions, Passes(v));
    LoweredRelays(BootActions + Passes(v));
  }

  class Board {
    var relay: Bit       // RB0
    var rs: Bit          // RB1, display register select
    var en: Bit          // RB2, display enable
    var d4: Bit          // RB4..RB7, display data lines
    var d5: Bit
    var d6: Bit
    var d7: Bit
    var trisb: Byte
    var trisc6: Bit
    var trisc7: Bit
    var spbrg: Byte
    var txsta: Byte
    var rcsta: Byte
    var rcreg: CChar
    var txreg: CChar
    var lcd: Controller  // the display controller
    var rx: seq<Rx>      // receptions the badge reader has yet to deliver
    var tx: seq<CChar>   // every character loaded into TXREG, in order
    var log: seq<Event>  // display latches, delays and relay writes, in order
    ghost var trace: seq<Action>  // the driver calls, relay writes and delays behind `log`
    const rfidTag: array<CChar>  // the global `char rfid_tag[11]`

    ghost predicate Valid()
      reads this
    {
      rfidTag.Length == TagLength + 1 && lcd.phase == AwaitHigh
    }

    /** Every event on the board comes from a completed action of `trace`. */
    ghost predicate Coherent()
      reads this
    {
      log == LowerAll(trace)
    }

    /** The display lines after a byte has been sent: RS selects `mode`, EN is low, D4..D7 hold the low nibble. */
    ghost predicate AfterByte(mode: Bit, code: Byte)
      reads this
    {
      rs == mode && en == 0 && d4 == BitOf(code, 0) && d5 == BitOf(code, 1)
      && d6 == BitOf(code, 2) && d7 == BitOf(code, 3)
    }

    /** The board at power-on, with the badge reader about to send `input`. */
    constructor (input: seq<Rx>)
      ensures Valid() && Coherent() && fresh(rfidTag)
      ensures lcd.text == [] && rx == input && tx == [] && log == [] && trace == []
    {
      relay, rs, en, d4, d5, d6, d7 := 0, 0, 0, 0, 0, 0, 0;
      trisb, trisc6, trisc7 := 0xFF, 1, 1;
      spbrg, txsta, rcsta := 0, 0x02, 0;
      rcreg, txreg := '\0', '\0';
      lcd := Controller(AwaitHigh, []);
      rx, tx, log, trace := input, [], [], [];
      rfidTag := new CChar[TagLength + 1](_ => '\0');
    }

    /** `__delay_us(us)`, inside a display transfer. */
    method DelayUs(us: nat)
      modifies this`log
      ensures log == old(log) + [WaitUs(us)]
    {
      log := log + [WaitUs(us)];
    }

    /** `__delay_ms(ms)`. */
    method DelayMs(ms: nat)
      requires Coherent()
      modifies this`log, this`trace
      ensures Coherent() && trace == old(trace) + [Pause(ms)]
      ensures log == old(log) + [WaitMs(ms)]
    {
      log := log + [WaitMs(ms)];
      LowerSnoc(trace, Pause(ms));
      trace := trace + [Pause(ms)];
    }

    /** `RELAY_PIN = level`. */
    method SetRelay(level: Bit)
      requires Coherent()
      modifies this`relay, this`log, this`trace
      ensures relay == level
      ensures Coherent() && trace == old(trace) + [Relay(level)]
      ensures log == old(log) + [RelayPin(level)]
    {
      relay := level;
      log := log + [RelayPin(level)];
      LowerSnoc(trace, Relay(level));
      trace := trace + [Relay(level)];
    }

    /**
     * `LCD_EN = 1; __delay_us(1); LCD_EN = 0; __delay_us(settleUs);`: the
     * controller latches RS and D4..D7 on the falling edge of EN.
     */
    method PulseEnable(settleUs: nat)
      modifies this`en, this`lcd, this`log
      ensures en == 0
      ensures lcd == Latch(old(lcd), rs, LinesValue(d4, d5, d6, d7))
      ensures log == old(log) + [WaitUs(1), Latched(rs, LinesValue(d4, d5, d6, d7)), WaitUs(settleUs)]
    {
      en := 1;
      DelayUs(1);
      en := 0;
      lcd := Latch(lcd, rs, LinesValue(d4, d5, d6, d7));
      log := log + [Latched(rs, LinesValue(d4, d5, d6, d7))];
      DelayUs(settleUs);
    }

    /**
     * The body shared by LCD_Command and LCD_Char: select the register, put
     * bits 4..7 on D4..D7 and pulse EN, then bits 0..3 and pulse EN again.
     */
    method SendByte(mode: Bit, code: Byte, settleUs: nat)
      requires Valid()
      modifies this`rs, this`en, this`d4, this`d5, this`d6, this`d7, this`lcd, this`log
      ensures Valid() && AfterByte(mode, code)
      ensures lcd == Execute(old(lcd), mode, code)
      ensures log == old(log) + Transfer(mode, code, settleUs)
    {
      rs := mode;
      d4 := BitOf(code, 4);
      d5 := BitOf(code, 5);
      d6 := BitOf(code, 6);
      d7 := BitOf(code, 7);
      PulseEnable(1);
      d4 := BitOf(code, 0);
      d5 := BitOf(code, 1);
      d6 := BitOf(code, 2);
      d7 := BitOf(code, 3);
      PulseEnable(settleUs);
      NibbleRoundTrip(code);
      LatchPair(old(lcd), mode, code);
    }

    /** LCD_Command: send an instruction. */
    method LcdCommand(cmd: Byte)
      requires Valid() && Coherent()
      modifies this`rs, this`en, this`d4, this`d5, this`d6, this`d7, this`lcd, this`log, this`trace
      ensures Valid() && AfterByte(CommandMode, cmd)
      ensures lcd.text == if cmd == ClearDisplay then [] else old(lcd.text)
      ensures Coherent() && trace == old(trace) + [Command(cmd)]
      ensures log == old(log) + Transfer(CommandMode, cmd, CommandSettleUs)
    {
      SendByte(CommandMode, cmd, CommandSettleUs);
      LowerSnoc(trace, Command(cmd));
      trace := trace + [Command(cmd)];
    }

    /** LCD_Char: write one character. */
    method LcdChar(data: CChar)
      requires Valid()
      modifies this`rs, this`en, this`d4, this`d5, this`d6, this`d7, this`lcd, this`log
      ensures Valid() && AfterByte(DataMode, data as int)
      ensures lcd.text == old(lcd.text) + [data]
      ensures log == old(log) + Transfer(DataMode, data as int, DataSettleUs)
    {
      SendByte(DataMode, data as int, DataSettleUs);
    }

    /** LCD_String: write the characters before the first NUL of `s`, one LCD_Char each. */
    method LcdString(s: seq<CChar>)
      requires Valid() && Coherent() && '\0' in s
      modifies this`rs, this`en, this`d4, this`d5, this`d6, this`d7, this`lcd, this`log, this`trace
      ensures Valid()
      ensures lcd.text == old(lcd.text) + CStr(s)
      ensures Coherent() && trace == old(trace) + [Str(CStr(s))]
      ensures log == old(log) + StrEvents(CStr(s))
    {
      WriteChars(s);
      LowerSnoc(trace, Str(CStr(s)));
      trace := trace + [Str(CStr(s))];
    }

    /** The loop of LCD_String (rfid.c:152-154): one LCD_Char per character before the NUL. */
    method WriteChars(s: seq<CChar>)
      requires Valid() && '\0' in s
      modifies this`rs, this`en, this`d4, this`d5, this`d6, this`d7, this`lcd, this`log
      ensures Valid()
      ensures lcd.text == old(lcd.text) + CStr(s)
      ensures log == old(log) + StrEvents(CStr(s))
    {
      var p := 0;
      while s[p] != '\0'
        invariant 0 <= p <= CLen(s) < |s|
        invariant Valid()
        invariant lcd.text == old(lcd.text) + s[..p]
        invariant log == old(log) + StrEvents(s[..p])
        decreases CLen(s) - p
      {
        LcdChar(s[p]);
        assert s[..p + 1] == s[..p] + [s[p]];
        StrEventsSnoc(s[..p], s[p]);
        p := p + 1;
      }
    }

    /**
     * LCD_String applied to a string literal: the compiler stores the text
     * followed by a NUL, and the display receives exactly the text.
     */
    method LcdStringLiteral(text: seq<CChar>)
      requires Valid() && Coherent() && '\0' !in text
      modifies this`rs, this`en, this`d4, this`d5, this`d6, this`d7, this`lcd, this`log, this`trace
      ensures Valid() && lcd.text == old(lcd.text) + text
      ensures Coherent() && trace == old(trace) + [Str(text)]
    {
      CStrOfTerminated(text, []);
      LcdString(text + ['\0']);
    }

    /** LCD_Clear: the clear instruction and its longer settle time. */
    method LcdClear()
      requires Valid() && Coherent()
      modifies this`rs, this`en, this`d4, this`d5, this`d6, this`d7, this`lcd, this`log, this`trace
      ensures Valid() && lcd.text == []
      ensures Coherent() && trace == old(trace) + ClearActions
    {
      LcdCommand(ClearDisplay);
      DelayMs(ClearSettleMs);
    }

    /** `LCD_Clear(); LCD_String(text);`, how every message is put on the screen. */
    method ShowMessage(text: seq<CChar>)
      requires Valid() && Coherent() && '\0' !in text
      modifies this`rs, this`en, this`d4, this`d5, this`d6, this`d7, this`lcd, this`log, this`trace
      ensures Valid() && lcd.text == text
      ensures Coherent() && trace == old(trace) + Message(text)
    {
      ghost var t0 := trace;
      LcdClear();
      LcdStringLiteral(text);
      MessageSteps(t0, text);
    }

    /** LCD_Init. */
    method LcdInit()
      requires Valid() && Coherent()
      modifies this`rs, this`en, this`d4, this`d5, this`d6, this`d7, this`lcd, this`log, this`trace
      ensures Valid() && lcd.text == []
      ensures Coherent() && trace == old(trace) + InitActions
    {
      ghost var t0 := trace;
      DelayMs(PowerUpMs);
      LcdCommand(0x02);
      LcdCommand(0x28);
      LcdCommand(0x0C);
      LcdCommand(0x06);
      LcdCommand(ClearDisplay);
      DelayMs(ClearSettleMs);
      InitSteps(t0);
    }

    /** UART_Init: program the baud-rate divisor, enable transmitter and receiver. */
    method UartInit()
      modifies this`spbrg, this`txsta, this`rcsta
      ensures spbrg == BaudDivisor(XtalHz, BaudRate) == 129
      ensures txsta == TxstaInit && rcsta == RcstaInit
    {
      DivisorFitsRegister();
      spbrg := BaudDivisor(XtalHz, BaudRate) % 256;
      txsta := TxstaInit;
      rcsta := RcstaInit;
    }

    /**
     * UART_Read: take the next reception; on an overrun or framing error reset
     * the receiver, and return RCREG in either case.
     */
    method UartRead() returns (c: CChar)
      requires rx != []
      modifies this`rx, this`rcsta, this`rcreg
      ensures c == old(rx[0].data) && rcreg == c
      ensures rcsta == StatusAfterRead(old(rx[0].status))
      ensures rx == old(rx[1..])
    {
      rcsta, rcreg := rx[0].status, rx[0].data;
      rx := rx[1..];
      if HasError(rcsta) {
        rcsta := 0;
        rcsta := RcstaInit;
      }
      c := rcreg;
    }

    /** UART_Write: load one character into the transmitter. */
    method UartWrite(data: CChar)
      modifies this`txreg, this`tx
      ensures txreg == data && tx == old(tx) + [data]
    {
      txreg := data;
      tx := tx + [data];
    }

    /** UART_Write_Text: send the characters before the first NUL of `s`, one UART_Write each. */
    method UartWriteText(s: seq<CChar>)
      requires '\0' in s
      modifies this`txreg, this`tx
      ensures tx == old(tx) + CStr(s)
      ensures txreg == if CStr(s) == [] then old(txreg) else CStr(s)[|CStr(s)| - 1]
    {
      var p := 0;
      while s[p] != '\0'
        invariant 0 <= p <= CLen(s) < |s|
        invariant tx == old(tx) + s[..p]
        invariant txreg == if p == 0 then old(txreg) else s[p - 1]
        decreases CLen(s) - p
      {
        UartWrite(s[p]);
        assert s[..p + 1] == s[..p] + [s[p]];
        p := p + 1;
      }
    }

    /** System_Init: port directions, display and serial set-up, relay off. */
    method SystemInit()
      requires Valid() && Coherent()
      modifies this`trisb, this`trisc6, this`trisc7, this`spbrg, this`txsta, this`rcsta,
               this`relay, this`rs, this`en, this`d4, this`d5, this`d6, this`d7, this`lcd,
               this`log, this`trace
      ensures Valid() && trisb == 0 && trisc6 == 0 && trisc7 == 1
      ensures spbrg == 129 && txsta == TxstaInit && rcsta == RcstaInit
      ensures relay == 0 && lcd.text == []
      ensures Coherent() && trace == old(trace) + SystemActions
    {
      ghost var t0 := trace;
      trisb := 0x00;
      trisc6 := 0;
      trisc7 := 1;
      LcdInit();
      UartInit();
      SetRelay(0);
      SystemSteps(t0);
    }

    /** `main` up to its endless loop. */
    method PowerOn()
      requires Valid() && Coherent()
      modifies this`trisb, this`trisc6, this`trisc7, this`spbrg, this`txsta, this`rcsta,
               this`relay, this`rs, this`en, this`d4, this`d5, this`d6, this`d7, this`lcd,
               this`log, this`trace
      ensures Valid() && trisb == 0 && trisc6 == 0 && trisc7 == 1
      ensures spbrg == 129 && txsta == TxstaInit && rcsta == RcstaInit
      ensures relay == 0 && lcd.text == ScanPrompt
      ensures Coherent() && trace == old(trace) + BootActions
    {
      ghost var t0 := trace;
      MessagesPlain();
      SystemInit();
      ShowMessage(Splash);
      DelayMs(SplashMs);
      ShowMessage(ScanPrompt);
      BootSteps(t0);
    }

    /**
     * The body of the collection loop of Check_RFID (rfid.c:201-205): read a
     * character and, when it is in '0'..'9' or 'A'..'F', store it at index
     * `i` and advance `i`.
     */
    method CollectChar(i: nat) returns (next: nat)
      requires Valid() && i < TagLength && rx != []
      modifies rfidTag, this`rx, this`rcsta, this`rcreg
      ensures Valid() && rx == old(rx[1..])
      ensures rcreg == old(rx[0].data) && rcsta == StatusAfterRead(old(rx[0].status))
      ensures next == if IsTagChar(old(rx[0].data)) then i + 1 else i
      ensures rfidTag[..next] == old(rfidTag[..i]) + (if IsTagChar(old(rx[0].data)) then [old(rx[0].data)] else [])
      ensures rfidTag[next..] == old(rfidTag[next..])
    {
      var c := UartRead();
      next := i;
      if IsTagChar(c) {
        rfidTag[i] := c;
        next := i + 1;
      }
    }

    /**
     * Collecting an identifier for Check_RFID (rfid.c:196-208): read up to
     * ten characters in '0'..'9' or 'A'..'F', then terminate the buffer.
     */
    method CollectTag()
      requires Valid() && TagLength <= |Accepted(Payload(rx))|
      modifies rfidTag, this`rx, this`rcsta, this`rcreg
      ensures Valid()
      ensures rfidTag[..TagLength] == NextTag(Payload(old(rx)))
      ensures rfidTag[TagLength] == '\0'
      ensures var k := Consumed(Payload(old(rx)), TagLength);
              rx == old(rx)[k..] && rcreg == old(rx)[k - 1].data
              && rcsta == StatusAfterRead(old(rx)[k - 1].status)
    {
      ghost var s := Payload(rx);
      var i;
      ghost var k;
      i, k := ReadTagChars();
      rfidTag[i] := '\0';
      assert rfidTag[..TagLength] == Accepted(s[..k]);
      CollectedTag(s, k);
    }

    /**
     * The collection loop of Check_RFID (rfid.c:200-207): read characters
     * until ten of them were in '0'..'9' or 'A'..'F', storing those in
     * order; `k` is how many were read.
     */
    method ReadTagChars() returns (i: nat, ghost k: nat)
      requires Valid() && TagLength <= |Accepted(Payload(rx))|
      modifies rfidTag, this`rx, this`rcsta, this`rcreg
      ensures Valid() && i == TagLength && 0 < k <= |old(rx)|
      ensures rfidTag[..i] == Accepted(Payload(old(rx))[..k]) && IsTagChar(Payload(old(rx))[k - 1])
      ensures rx == old(rx)[k..] && rcreg == old(rx)[k - 1].data
              && rcsta == StatusAfterRead(old(rx)[k - 1].status)
    {
      ghost var rx0 := rx;
      ghost var s := Payload(rx);
      k := 0;
      i := 0;
      assert s[k..] == s;
      while i < TagLength
        invariant 0 <= i <= TagLength && k <= |s|
        invariant rx == rx0[k..]
        invariant rfidTag[..i] == Accepted(s[..k])
        invariant TagLength - i <= |Accepted(s[k..])|
        invariant i == TagLength ==> 0 < k && IsTagChar(s[k - 1])
        invariant k > 0 ==> rcreg == rx0[k - 1].data && rcsta == StatusAfterRead(rx0[k - 1].status)
        decreases |rx|
      {
        ReadStep(s, k);
        assert rx[0] == rx0[k] && rx0[k].data == s[k];
        i := CollectChar(i);
        assert rx == rx0[k + 1..];
        k := k + 1;
      }
    }

    /**
     * Check_RFID (rfid.c:195-233): collect an identifier, look it up, and
     * either open the door for 3 s or show the refusal for 2 s; both end on
     * the idle prompt, and the relay is off after an opening.
     */
    method CheckRfid()
      requires Valid() && Coherent() && TagLength <= |Accepted(Payload(rx))|
      modifies rfidTag, this`rx, this`rcsta, this`rcreg,
               this`relay, this`rs, this`en, this`d4, this`d5, this`d6, this`d7, this`lcd,
               this`log, this`trace
      ensures Valid() && lcd.text == ScanPrompt
      ensures rfidTag[..TagLength] == NextTag(Payload(old(rx)))
      ensures rfidTag[TagLength] == '\0'
      ensures var k := Consumed(Payload(old(rx)), TagLength);
              rx == old(rx)[k..] && rcreg == old(rx)[k - 1].data
              && rcsta == StatusAfterRead(old(rx)[k - 1].status)
      ensures var authorised := Admitted(NextTag(Payload(old(rx))));
              relay == (if authorised then 0 else old(relay))
              && Coherent() && trace == old(trace) + Outcome(authorised)
    {
      CollectTag();
      var authorised := LookUp();
      Respond(authorised);
    }

    /**
     * The lookup of Check_RFID (rfid.c:211-225): compare the NUL-terminated
     * buffer with each entry of the allow-list.
     */
    method LookUp() returns (authorised: bool)
      requires Valid() && rfidTag[TagLength] == '\0' && '\0' !in rfidTag[..TagLength]
      ensures authorised == Admitted(rfidTag[..TagLength])
    {
      CStrOfTerminated(rfidTag[..TagLength], []);
      assert rfidTag[..] == rfidTag[..TagLength] + ['\0'] + [];
      assert Terminated(AuthorizedTags) by { assert AuthorizedTags[3] == Null; }
      authorised := FindTag(AuthorizedTags, CStr(rfidTag[..]));
    }

    /** What Check_RFID does with the verdict of the lookup (rfid.c:212-232). */
    method Respond(authorised: bool)
      requires Valid() && Coherent()
      modifies this`relay, this`rs, this`en, this`d4, this`d5, this`d6, this`d7, this`lcd,
               this`log, this`trace
      ensures Valid() && lcd.text == ScanPrompt
      ensures relay == if authorised then 0 else old(relay)
      ensures Coherent() && trace == old(trace) + Outcome(authorised)
    {
      if authorised {
        Grant();
      } else {
        Refuse();
      }
    }

    /** The authorised branch of Check_RFID (rfid.c:215-222): open the door for 3 s. */
    method Grant()
      requires Valid() && Coherent()
      modifies this`relay, this`rs, this`en, this`d4, this`d5, this`d6, this`d7, this`lcd,
               this`log, this`trace
      ensures Valid() && relay == 0 && lcd.text == ScanPrompt
      ensures Coherent() && trace == old(trace) + GrantedActions
    {
      ghost var t0 := trace;
      MessagesPlain();
      ShowMessage(GrantedText);
      SetRelay(1);
      DelayMs(UnlockMs);
      SetRelay(0);
      ShowMessage(ScanPrompt);
      GrantedSteps(t0);
    }

    /** The refusal of Check_RFID (rfid.c:228-232): show it for 2 s; the relay is left alone. */
    method Refuse()
      requires Valid() && Coherent()
      modifies this`rs, this`en, this`d4, this`d5, this`d6, this`d7, this`lcd, this`log, this`trace
      ensures Valid() && lcd.text == ScanPrompt
      ensures Coherent() && trace == old(trace) + RefusedActions
    {
      ghost var t0 := trace;
      MessagesPlain();
      ShowMessage(RefusedText);
      DelayMs(RefusedMs);
      ShowMessage(ScanPrompt);
      RefusedSteps(t0);
    }

    /**
     * `main` (rfid.c:65-78) with its endless loop cut after `n` passes: the
     * board's whole history is the boot sequence followed by one pass per
     * identifier, each decided by the lookup of that identifier.
     */
    method Run(n: nat)
      requires Valid() && Coherent()
      requires TagLength * n <= |Accepted(Payload(rx))|
      modifies rfidTag, this`trisb, this`trisc6, this`trisc7, this`spbrg, this`txsta,
               this`rx, this`rcsta, this`rcreg,
               this`relay, this`rs, this`en, this`d4, this`d5, this`d6, this`d7, this`lcd,
               this`log, this`trace
      ensures Valid() && relay == 0 && lcd.text == ScanPrompt
      ensures trisb == 0 && trisc6 == 0 && trisc7 == 1 && spbrg == 129 && txsta == TxstaInit
      ensures rx == Remaining(old(rx), n)
      ensures Coherent() && trace == old(trace) + (BootActions + Passes(Verdicts(old(rx), n)))
    {
      ghost var t0, rx0 := trace, rx;
      PowerOn();
      ServeBadges(n);
      CycleStep(t0, BootActions, Passes(Verdicts(rx0, n)));
    }

    /**
     * `n` passes of the endless loop `while(1) Check_RFID();` (rfid.c:75-77)
     * over a stream that holds at least `n` identifiers.
     */
    method ServeBadges(n: nat)
      requires Valid() && Coherent() && lcd.text == ScanPrompt && relay == 0
      requires TagLength * n <= |Accepted(Payload(rx))|
      modifies rfidTag, this`rx, this`rcsta, this`rcreg,
               this`relay, this`rs, this`en, this`d4, this`d5, this`d6, this`d7, this`lcd,
               this`log, this`trace
      ensures Valid() && relay == 0 && lcd.text == ScanPrompt
      ensures rx == Remaining(old(rx), n)
      ensures Coherent() && trace == old(trace) + Passes(Verdicts(old(rx), n))
    {
      var j := 0;
      while j < n
        invariant 0 <= j <= n
        invariant Valid() && relay == 0 && lcd.text == ScanPrompt
        invariant rx == Remaining(old(rx), j)
        invariant Coherent() && trace == old(trace) + Passes(Verdicts(old(rx), j))
      {
        ghost var v, pre := Verdicts(old(rx), j), rx;
        PassStep(old(rx), n, j);
        CheckRfid();
        ghost var b := Admitted(NextTag(Payload(pre)));
        PassesSnoc(v, b);
        CycleStep(old(trace), Passes(v), Outcome(b));
        j := j + 1;
      }
    }
}
}
