/**
 * The character display's controller, as far as the firmware can observe it:
 * it is driven over a 4-bit interface (RS, EN, D4..D7) and latches one nibble
 * on every falling edge of EN, the high nibble of a byte first. A complete
 * byte is a command when RS was 0 and a character when RS was 1.
 */
module Display {
  import opened Bytes

  /** The "clear display" instruction (rfid.c:159). */
  const ClearDisplay: Byte := 0x01

  /** Register-select levels: RS = 0 selects the instruction register, 1 the data register. */
  const CommandMode: Bit := 0
  const DataMode: Bit := 1

  /** Where the controller is in receiving a byte over its 4-bit interface. */
  datatype Phase = AwaitHigh | AwaitLow(high: Nibble)

  /**
   * The controller's interface phase and the characters written since the
   * last clear. Instructions other than "clear display" (function set,
   * display control, entry mode, home) do not change `text` in this model.
   */
  datatype Controller = Controller(phase: Phase, text: seq<CChar>)

  /** The controller's reaction to a complete byte. */
  function Execute(c: Controller, rs: Bit, code: Byte): Controller
  {
    if rs == DataMode then c.(text := c.text + [code as char])
    else if code == ClearDisplay then c.(text := [])
    else c
  }

  /** The controller latching nibble `n` with register select `rs`. */
  function Latch(c: Controller, rs: Bit, n: Nibble): Controller
  {
    match c.phase
    case AwaitHigh => c.(phase := AwaitLow(n))
    case AwaitLow(high) => Execute(c.(phase := AwaitHigh), rs, 16 * high + n)
  }

  /**
   * Driving D4..D7 with bits 4..7 and then bits 0..3 of a byte, latching each
   * time, makes a controller that was between bytes execute exactly that byte
   * and return to waiting for a high nibble.
   */
  lemma LatchPair(c: Controller, rs: Bit, code: Byte)
    requires c.phase == AwaitHigh
    ensures Latch(Latch(c, rs, HighLines(code)), rs, LowLines(code)) == Execute(c, rs, code)
    ensures Execute(c, rs, code).phase == AwaitHigh
  {
    NibbleRoundTrip(code);
  }
}
