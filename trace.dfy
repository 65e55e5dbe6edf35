/**
 * What the firmware does to the outside world, at two levels. An `Event` is
 * one observable step on the board: the display latching a nibble, a busy-wait
 * delay, a write to the relay pin. An `Action` is one call of the display
 * driver (an instruction or a string) or one relay or millisecond-delay
 * statement; `Lower` gives the events each action produces.
 */
module Trace {
  import opened Bytes
  import opened Display

  /** Settle time after the second nibble of an instruction (rfid.c:125). */
  const CommandSettleUs: nat := 100
  /** Settle time after the second nibble of a character (rfid.c:147). */
  const DataSettleUs: nat := 40

  datatype Event =
    | Latched(rs: Bit, value: Nibble)  // the controller took D4..D7 on a falling edge of EN
    | WaitUs(us: nat)                  // __delay_us
    | WaitMs(ms: nat)                  // __delay_ms
    | RelayPin(level: Bit)             // a write to RB0

  datatype Action =
    | Command(code: Byte)       // LCD_Command
    | Str(text: seq<CChar>)     // LCD_String, with the characters before the NUL
    | Relay(level: Bit)         // RELAY_PIN = level
    | Pause(ms: nat)            // __delay_ms

  /**
   * One byte sent to the display: each nibble is latched one microsecond after
   * EN rises and followed by a wait, the last wait being the byte's settle time.
   */
  function Transfer(rs: Bit, code: Byte, settleUs: nat): (e: seq<Event>)
    ensures |e| == TransferEvents
    ensures e[1].Latched? && e[4].Latched? && e[1].rs == e[4].rs == rs
    ensures 16 * e[1].value + e[4].value == code
    ensures forall i :: 0 <= i < |e| ==> !e[i].RelayPin?
  {
    [WaitUs(1), Latched(rs, code / 16), WaitUs(1),
     WaitUs(1), Latched(rs, code % 16), WaitUs(settleUs)]
  }

  /** The number of events of one byte transfer. */
  const TransferEvents: nat := 6

  /** The character that event `i` of a run of byte transfers belongs to. */
  function Slot(i: nat): (q: nat)
    ensures q * TransferEvents <= i < q * TransferEvents + TransferEvents
  {
    if i < 6 then 0 else 1 + Slot(i - 6)
  }

  /** The position of event `i` within its byte transfer. */
  function Offset(i: nat): (r: nat)
    ensures r < TransferEvents && r == i - Slot(i) * TransferEvents
  {
    if i < 6 then i else Offset(i - 6)
  }

  /**
   * The events of writing the characters of `s` one by one as data: the
   * transfers of its characters, one after the other.
   */
  function StrEvents(s: seq<CChar>): (e: seq<Event>)
    ensures |e| == TransferEvents * |s|
  {
    seq(TransferEvents * |s|, i requires 0 <= i < TransferEvents * |s| =>
      Transfer(DataMode, s[Slot(i)] as int, DataSettleUs)[Offset(i)])
  }

  /** Writing one more character appends its transfer. */
  lemma StrEventsSnoc(s: seq<CChar>, c: CChar)
    ensures StrEvents(s + [c]) == StrEvents(s) + Transfer(DataMode, c as int, DataSettleUs)
  {
    var n := TransferEvents * |s|;
    var a, b := StrEvents(s + [c]), StrEvents(s) + Transfer(DataMode, c as int, DataSettleUs);
    forall i | 0 <= i < |a|
      ensures a[i] == b[i]
    {
      if i < n {
        assert (s + [c])[Slot(i)] == s[Slot(i)];
      } else {
        assert Slot(i) == |s| && Offset(i) == i - n;
      }
    }
  }

  function Lower(a: Action): seq<Event>
  {
    match a
    case Command(code) => Transfer(CommandMode, code, CommandSettleUs)
    case Str(s) => StrEvents(s)
    case Relay(level) => [RelayPin(level)]
    case Pause(ms) => [WaitMs(ms)]
  }

  /** The events of a sequence of actions, one action after the other. */
  function LowerAll(acts: seq<Action>): seq<Event>
  {
    if acts == [] then [] else Lower(acts[0]) + LowerAll(acts[1..])
  }

  /** Lowering distributes over concatenation of action lists. */
  lemma {:induction false} LowerAllAppend(xs: seq<Action>, ys: seq<Action>)
    ensures LowerAll(xs + ys) == LowerAll(xs) + LowerAll(ys)
    decreases |xs|
  {
    if xs == [] {
      assert xs + ys == ys;
    } else {
      assert (xs + ys)[0] == xs[0];
      assert (xs + ys)[1..] == xs[1..] + ys;
      LowerAllAppend(xs[1..], ys);
    }
  }

  lemma LowerSnoc(acts: seq<Action>, a: Action)
    ensures LowerAll(acts + [a]) == LowerAll(acts) + Lower(a)
  {
    LowerAllAppend(acts, [a]);
    assert [a][1..] == [];
  }

  /** The levels written to the relay pin, in order. */
  function RelayLevels(e: seq<Event>): (r: seq<Bit>)
    ensures |r| <= |e|
  {
    if e == [] then []
    else (if e[0].RelayPin? then [e[0].level] else []) + RelayLevels(e[1..])
  }

  /** The levels the actions assign to the relay, in order. */
  function RelayActions(acts: seq<Action>): seq<Bit>
  {
    if acts == [] then []
    else (if acts[0].Relay? then [acts[0].level] else []) + RelayActions(acts[1..])
  }

  lemma RelayActionsSingle(a: Action)
    ensures RelayActions([a]) == if a.Relay? then [a.level] else []
  {
    assert [a][1..] == [];
  }

  lemma {:induction false} RelayActionsNone(acts: seq<Action>)
    requires forall i :: 0 <= i < |acts| ==> !acts[i].Relay?
    ensures RelayActions(acts) == []
    decreases |acts|
  {
    if acts != [] {
      RelayActionsNone(acts[1..]);
    }
  }

  lemma {:induction false} RelayActionsAppend(a: seq<Action>, b: seq<Action>)
    ensures RelayActions(a + b) == RelayActions(a) + RelayActions(b)
    decreases |a|
  {
    if a == [] {
      assert a + b == b;
    } else {
      var head := if a[0].Relay? then [a[0].level] else [];
      assert (a + b)[0] == a[0];
      assert (a + b)[1..] == a[1..] + b;
      calc {
        RelayActions(a + b);
        head + RelayActions(a[1..] + b);
        { RelayActionsAppend(a[1..], b); }
        head + (RelayActions(a[1..]) + RelayActions(b));
        (head + RelayActions(a[1..])) + RelayActions(b);
      }
    }
  }

  lemma {:induction false} RelayLevelsAppend(a: seq<Event>, b: seq<Event>)
    ensures RelayLevels(a + b) == RelayLevels(a) + RelayLevels(b)
    decreases |a|
  {
    if a == [] {
      assert a + b == b;
    } else {
      var head := if a[0].RelayPin? then [a[0].level] else [];
      assert (a + b)[0] == a[0];
      assert (a + b)[1..] == a[1..] + b;
      calc {
        RelayLevels(a + b);
        head + RelayLevels(a[1..] + b);
        { RelayLevelsAppend(a[1..], b); }
        head + (RelayLevels(a[1..]) + RelayLevels(b));
        (head + RelayLevels(a[1..])) + RelayLevels(b);
      }
    }
  }

  lemma {:induction false} RelayLevelsNone(e: seq<Event>)
    requires forall b :: RelayPin(b) !in e
    ensures RelayLevels(e) == []
    decreases |e|
  {
    if e != [] {
      assert e[0] in e;
      assert forall b :: RelayPin(b) in e[1..] ==> RelayPin(b) in e;
      RelayLevelsNone(e[1..]);
    }
  }

  /** Writing text to the display never touches the relay pin. */
  lemma StrEventsNoRelay(s: seq<CChar>)
    ensures forall b :: RelayPin(b) !in StrEvents(s)
  {
    var e := StrEvents(s);
    forall i | 0 <= i < |e|
      ensures !e[i].RelayPin?
    {
      var t := Transfer(DataMode, s[Slot(i)] as int, DataSettleUs);
      assert e[i] == t[Offset(i)];
    }
  }

  /**
   * The relay writes of the lowered events are exactly the relay actions:
   * the display driver adds none and loses none.
   */
  lemma {:induction false} LoweredRelays(acts: seq<Action>)
    ensures RelayLevels(LowerAll(acts)) == RelayActions(acts)
    decreases |acts|
  {
    if acts != [] {
      var first := acts[0];
      LoweredRelays(acts[1..]);
      RelayLevelsAppend(Lower(first), LowerAll(acts[1..]));
      match first
      case Str(s) =>
        StrEventsNoRelay(s);
        RelayLevelsNone(Lower(first));
      case Relay(level) =>
        assert RelayLevels(Lower(first)) == [level];
      case _ =>
        RelayLevelsNone(Lower(first));
    }
  }
}
