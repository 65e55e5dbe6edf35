/**
 * The asynchronous serial port (USART) the badge reader is connected to:
 * its baud-rate divisor, its register constants and what a reception looks
 * like to the firmware.
 */
module Serial {
  import opened Bytes

  /** Oscillator frequency in Hz (`_XTAL_FREQ`, rfid.c:28). */
  const XtalHz: nat := 20000000
  /** Baud rate of the link to the badge reader (rfid.c:29). */
  const BaudRate: nat := 9600

  /** TXSTA: transmitter enabled (TXEN) and high-speed baud generation (BRGH) (rfid.c:167). */
  const TxstaInit: Byte := 0x24
  /** RCSTA: serial port enabled (SPEN) and continuous reception (CREN) (rfid.c:168). */
  const RcstaInit: Byte := 0x90

  /**
   * What the receiver presents when a byte has arrived (RCIF set): the status
   * register RCSTA, whose bit 1 is the overrun flag and bit 2 the framing-error
   * flag, and the received character in RCREG.
   */
  datatype Rx = Rx(status: Byte, data: CChar)

  /** The characters of a sequence of receptions. */
  function Payload(rx: seq<Rx>): (s: seq<CChar>)
    ensures |s| == |rx|
    ensures forall i :: 0 <= i < |rx| ==> s[i] == rx[i].data
  {
    seq(|rx|, i requires 0 <= i < |rx| => rx[i].data)
  }

  lemma PayloadSuffix(rx: seq<Rx>, k: nat)
    requires k <= |rx|
    ensures Payload(rx[k..]) == Payload(rx)[k..]
  {
  }

  /**
   * `RCSTA & 0x06`: the overrun or the framing-error flag is set (rfid.c:174),
   * that is, the status modulo 8 is at least 2.
   */
  predicate HasError(status: Byte)
    ensures HasError(status) <==> status % 8 >= 2
  {
    var half, quarter := Shr(status, 1), Shr(status, 2);
    assert Shr(status, 0) == status;
    assert half == status / 2 && quarter == half / 2;
    assert status % 8 == status % 2 + 2 * (half % 2) + 4 * (quarter % 2);
    BitOf(status, 1) == 1 || BitOf(status, 2) == 1
  }

  /** RCSTA after UART_Read: reset to the enabled receiver on an error, untouched otherwise. */
  function StatusAfterRead(status: Byte): (r: Byte)
    ensures !HasError(r)
    ensures !HasError(status) ==> r == status
  {
    if HasError(status) then RcstaInit else status
  }

  /**
   * After UART_Read neither error flag is set, so a second read of the same
   * status changes nothing; a status without an error is left as it was.
   */
  lemma ReadClearsErrors(status: Byte)
    ensures !HasError(StatusAfterRead(status))
    ensures StatusAfterRead(StatusAfterRead(status)) == StatusAfterRead(status)
    ensures !HasError(status) ==> StatusAfterRead(status) == status
  {
    assert BitOf(RcstaInit, 1) == 0 && BitOf(RcstaInit, 2) == 0;
  }

  /**
   * The SPBRG value for high-speed mode, `xtal / (16 * baud) - 1` in integer
   * arithmetic (rfid.c:166): the divisor plus one is the largest multiple of
   * 16 bit-times per second that does not exceed the oscillator.
   */
  function BaudDivisor(xtal: nat, baud: nat): (r: int)
    requires baud > 0
    ensures 16 * baud * (r + 1) <= xtal < 16 * baud * (r + 2)
  {
    xtal / (16 * baud) - 1
  }

  /**
   * At 20 MHz and 9600 baud the divisor is 129: it fits the 8-bit SPBRG
   * register unchanged, and the rate it produces, 20000000 / (16 * 130),
   * is within 0.2% of 9600.
   */
  lemma DivisorFitsRegister()
    ensures BaudDivisor(XtalHz, BaudRate) == 129
    ensures 0 <= BaudDivisor(XtalHz, BaudRate) < 256
    ensures var bits := 16 * BaudRate * (BaudDivisor(XtalHz, BaudRate) + 1);
            bits <= XtalHz && (XtalHz - bits) * 500 < bits
  {
  }
}
