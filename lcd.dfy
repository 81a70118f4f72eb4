/**
 * The HD44780 16x2 character LCD behind a PCF8574 I2C port expander
 * (HW-061 board), driven in 4-bit mode. Every LCD instruction or character
 * becomes expander bytes written one at a time with `i2c_write_byte`:
 *
 *   P7..P4 = D7..D4, P3 = backlight, P2 = E, P1 = RW, P0 = RS.
 *
 * The I2C layer is reduced to the status each of those writes returns:
 * `bus(k)` is the status of the k-th byte written to the expander, and
 * `sent` is the trace of bytes handed to the I2C layer so far.
 */
module Lcd {
  import opened I2cStatus

  /** I2C address of the expander with A0..A2 left open. */
  const DISPLAY_ADDRESS: bv8 := 0x27

  // Expander pins.
  const RS: bv8 := 0x01
  const RW: bv8 := 0x02
  const E: bv8 := 0x04
  const BT: bv8 := 0x08

  // Data bits of an HD44780 instruction.
  const D0: bv8 := 0x01
  const D1: bv8 := 0x02
  const D2: bv8 := 0x04
  const D3: bv8 := 0x08
  const D4: bv8 := 0x10
  const D5: bv8 := 0x20
  const D6: bv8 := 0x40
  const D7: bv8 := 0x80

  // The instructions the driver issues.
  const WAKE_UP: bv8 := D4 + D5
  const FOUR_BIT: bv8 := D5
  const FUNCTION_SET: bv8 := D3 + D5
  const DISPLAY_ON: bv8 := D2 + D3
  const DISPLAY_OFF: bv8 := D3
  const CLEAR: bv8 := D0
  const LEFT_TO_RIGHT: bv8 := D1 + D2
  const RIGHT_TO_LEFT: bv8 := D2

  /** DDRAM address of the first column of each row. */
  const ROW_OFFSET: seq<bv8> := [0x00, 0x40]

  /**
   * What the instructions mean to the HD44780: function set with a 4-bit
   * interface, two lines and the 5x8 font; display control with the
   * display on or off and cursor and blink off; entry mode incrementing or
   * decrementing without shift; the wake-up and 4-bit nibbles are function
   * sets for 8-bit and 4-bit interfaces.
   */
  lemma InstructionCodes()
    ensures FUNCTION_SET == 0x28 && DISPLAY_ON == 0x0C && DISPLAY_OFF == 0x08
    ensures CLEAR == 0x01 && LEFT_TO_RIGHT == 0x06 && RIGHT_TO_LEFT == 0x04
    ensures WAKE_UP == 0x30 && FOUR_BIT == 0x20
  {
  }

  /** The RS and RW pins of a transfer. */
  function Control(rs: bool, rw: bool): bv8
  {
    (if rs then RS else 0) + (if rw then RW else 0)
  }

  /**
   * The expander bytes of one `lcd_write_data` call: the high nibble with
   * E raised, then with E lowered, and (outside the initialisation
   * sequence) the low nibble the same way. `state` is `display_state`, the
   * backlight pin. Sums are taken modulo 256 as the `uint8_t` argument
   * truncates them.
   */
  function Frames(data: bv8, rs: bool, rw: bool, init: bool, state: bv8): (f: seq<bv8>)
    ensures |f| == if init then 2 else 4
  {
    var high := data & 0xF0;
    var low := (data & 0x0F) << 4;
    var control := Control(rs, rw);
    var first := Pulse(high + control + state);
    if init then first else first + Pulse(low + control + state)
  }

  /** A byte on the expander with E raised, then the same byte with E low. */
  function Pulse(b: bv8): seq<bv8>
  {
    [b + E, b]
  }

  /** The levels an expander output byte puts on the LCD's pins. */
  datatype Pins = Pins(nibble: bv8, rs: bool, rw: bool, enable: bool, backlight: bool)

  function PinsOf(b: bv8): Pins
  {
    Pins(b >> 4, b & RS != 0, b & RW != 0, b & E != 0, b & BT != 0)
  }

  /**
   * The sums in `lcd_write_data` never carry into each other: byte i puts
   * the high nibble (bytes 0, 1) or the low nibble (bytes 2, 3) on D7..D4,
   * RS and RW as asked, E high on the first byte of each pair and low on
   * the second, and the backlight as `display_state` says.
   */
  lemma FramesDrivePins(data: bv8, rs: bool, rw: bool, init: bool, state: bv8, i: nat)
    requires state == 0 || state == BT
    requires i < |Frames(data, rs, rw, init, state)|
    ensures PinsOf(Frames(data, rs, rw, init, state)[i])
      == Pins(if i < 2 then data >> 4 else data & 0x0F, rs, rw, i % 2 == 0, state == BT)
  {
  }

  /**
   * The byte the HD44780 assembles in 4-bit mode: the nibble on D7..D4 at
   * the first falling edge of E, then the one at the second.
   */
  function Latched(f: seq<bv8>): bv8
    requires |f| == 4
  {
    (PinsOf(f[1]).nibble << 4) | PinsOf(f[3]).nibble
  }

  /** What the controller latches from a full transfer is the byte sent. */
  lemma FramesRoundTrip(data: bv8, rs: bool, rw: bool, state: bv8)
    requires state == 0 || state == BT
    ensures Latched(Frames(data, rs, rw, false, state)) == data
  {
    FramesDrivePins(data, rs, rw, false, state, 1);
    FramesDrivePins(data, rs, rw, false, state, 3);
  }

  /** Whether the `k` expander writes from the n-th on all return SUCCESS. */
  function Succeeds(bus: nat -> Status, n: nat, k: nat): bool
    decreases k
  {
    k == 0 || (bus(n) == Success && Succeeds(bus, n + 1, k - 1))
  }

  /**
   * How many of `k` planned expander writes, starting with the n-th, are
   * attempted when each one is made only after the previous one returned
   * SUCCESS: all of them, or up to and including the first that fails.
   */
  function Attempts(bus: nat -> Status, n: nat, k: nat): (c: nat)
    ensures c <= k
    decreases k
  {
    if k == 0 then 0
    else if bus(n) != Success then 1
    else 1 + Attempts(bus, n + 1, k - 1)
  }

  /** When every write succeeds, every planned write is made. */
  lemma {:induction false} AttemptsAll(bus: nat -> Status, n: nat, k: nat)
    requires Succeeds(bus, n, k)
    ensures Attempts(bus, n, k) == k
    decreases k
  {
    if k > 0 {
      AttemptsAll(bus, n + 1, k - 1);
    }
  }

  /**
   * When some write fails, the writes stop right after the first failing
   * one: every write before it succeeded.
   */
  lemma {:induction false} AttemptsStop(bus: nat -> Status, n: nat, k: nat)
    requires !Succeeds(bus, n, k)
    ensures 1 <= Attempts(bus, n, k)
    ensures Succeeds(bus, n, Attempts(bus, n, k) - 1)
    ensures bus(n + Attempts(bus, n, k) - 1) != Success
    decreases k
  {
    if bus(n) == Success {
      AttemptsStop(bus, n + 1, k - 1);
    }
  }

  /**
   * Planning `a` writes and then `b` more is planning `a + b` writes; `p`
   * and `total` stand for n + a and a + b.
   */
  lemma {:induction false} AttemptsConcat(bus: nat -> Status, n: nat, a: nat, b: nat, p: nat, total: nat)
    requires p == n + a && total == a + b
    ensures Attempts(bus, n, total)
      == if Succeeds(bus, n, a) then a + Attempts(bus, p, b) else Attempts(bus, n, a)
    decreases a
  {
    if a > 0 && bus(n) == Success {
      AttemptsConcat(bus, n + 1, a - 1, b, p, total - 1);
    }
  }

  /** All of `a + b` writes succeed when the first `a` and the `b` after them do. */
  lemma {:induction false} SucceedsConcat(bus: nat -> Status, n: nat, a: nat, b: nat, p: nat, total: nat)
    requires p == n + a && total == a + b
    ensures Succeeds(bus, n, total) <==> Succeeds(bus, n, a) && Succeeds(bus, p, b)
    decreases a
  {
    if a > 0 && bus(n) == Success {
      SucceedsConcat(bus, n + 1, a - 1, b, p, total - 1);
    }
  }

  /**
   * The bytes that go out when `a` and then `r` are sent with early exit:
   * all of `a` and then what goes out of `r`, or what goes out of `a`.
   */
  lemma SendConcat(bus: nat -> Status, n: nat, a: seq<bv8>, r: seq<bv8>)
    ensures (a + r)[..Attempts(bus, n, |a + r|)]
      == if Succeeds(bus, n, |a|) then a + r[..Attempts(bus, n + |a|, |r|)] else a[..Attempts(bus, n, |a|)]
    ensures Succeeds(bus, n, |a + r|) <==> Succeeds(bus, n, |a|) && Succeeds(bus, n + |a|, |r|)
  {
    AttemptsConcat(bus, n, |a|, |r|, n + |a|, |a + r|);
    SucceedsConcat(bus, n, |a|, |r|, n + |a|, |a + r|);
    if Succeeds(bus, n, |a|) {
      var k := Attempts(bus, n + |a|, |r|);
      assert (a + r)[..|a| + k] == a + r[..k];
    } else {
      var k := Attempts(bus, n, |a|);
      assert (a + r)[..k] == a[..k];
    }
  }

  lemma AppendAssoc(a: seq<bv8>, b: seq<bv8>, c: seq<bv8>)
    ensures a + b + c == a + (b + c)
  {
  }

  /**
   * One call in a sequence of writes planned as `plan`, of which the first
   * k went out (`before` is the trace then): the call sends `piece`, the
   * plan's next bytes up to k2, with early exit. If all of its writes
   * succeed, the plan's first k2 bytes are out; if one fails, what went out
   * is exactly what attempting the whole plan with early exit sends, and
   * neither the first k2 writes of the plan nor the plan as a whole succeeded.
   */
  lemma SendStep(bus: nat -> Status, start: seq<bv8>, plan: seq<bv8>, k: nat, k2: nat, before: seq<bv8>, piece: seq<bv8>)
    requires k2 == k + |piece| <= |plan| && plan[k..k2] == piece
    requires before == start + plan[..k] && Succeeds(bus, |start|, k)
    ensures Succeeds(bus, |before|, |piece|) ==>
      && Succeeds(bus, |start|, k2)
      && before + piece[..Attempts(bus, |before|, |piece|)] == start + plan[..k2]
    ensures !Succeeds(bus, |before|, |piece|) ==>
      && !Succeeds(bus, |start|, k2) && !Succeeds(bus, |start|, |plan|)
      && before + piece[..Attempts(bus, |before|, |piece|)] == start + plan[..Attempts(bus, |start|, |plan|)]
  {
    if Succeeds(bus, |before|, |piece|) {
      StepGoesOn(bus, |start|, |before|, k, |piece|, k2);
    } else {
      StepStops(bus, |start|, |before|, k, |piece|, k2, |plan|);
    }
    var a := Attempts(bus, |before|, |piece|);
    TakeStep(start, plan, k, k2, piece, a);
  }

  /** When the next m writes succeed too, the first k2 = k + m do. */
  lemma StepGoesOn(bus: nat -> Status, n: nat, p: nat, k: nat, m: nat, k2: nat)
    requires p == n + k && k2 == k + m && Succeeds(bus, n, k) && Succeeds(bus, p, m)
    ensures Succeeds(bus, n, k2) && Attempts(bus, p, m) == m
  {
    SucceedsConcat(bus, n, k, m, p, k2);
    AttemptsAll(bus, p, m);
  }

  /**
   * When one of the next m writes fails, the first k2 = k + m writes and
   * the whole plan of `total` fail, and the attempts stop where those m did.
   */
  lemma StepStops(bus: nat -> Status, n: nat, p: nat, k: nat, m: nat, k2: nat, total: nat)
    requires p == n + k && k2 == k + m <= total && Succeeds(bus, n, k) && !Succeeds(bus, p, m)
    ensures !Succeeds(bus, n, k2) && !Succeeds(bus, n, total)
    ensures Attempts(bus, n, total) == k + Attempts(bus, p, m)
  {
    SucceedsConcat(bus, n, k, m, p, k2);
    SucceedsConcat(bus, p, m, total - k2, p + m, total - k);
    SucceedsConcat(bus, n, k, total - k, p, total);
    AttemptsConcat(bus, p, m, total - k2, p + m, total - k);
    AttemptsConcat(bus, n, k, total - k, p, total);
  }

  /** The bytes behind `SendStep`: sending part of the next piece extends the plan's prefix. */
  lemma TakeStep(start: seq<bv8>, plan: seq<bv8>, k: nat, k2: nat, piece: seq<bv8>, a: nat)
    requires k2 == k + |piece| <= |plan| && plan[k..k2] == piece && a <= |piece|
    ensures start + plan[..k] + piece[..a] == start + plan[..k + a]
  {
    assert plan[..k] + piece[..a] == plan[..k + a];
    AppendAssoc(start, plan[..k], piece[..a]);
  }

  /**
   * `lcd_moveCursor`'s instruction: set DDRAM address to the row's offset
   * plus the column, both clamped to the 16x2 screen.
   */
  function CursorCommand(x: bv8, y: bv8): (c: bv8)
    ensures c & D7 == D7
  {
    var column := if x > 15 then 15 else x;
    var row := if y > 1 then 1 else y;
    D7 + ROW_OFFSET[row as int] + column
  }

  /**
   * The cursor always lands on the screen: DDRAM 0x00..0x0F on the first
   * row, 0x40..0x4F on the second, at the clamped column.
   */
  lemma CursorOnScreen(x: bv8, y: bv8)
    ensures CursorCommand(x, y) & 0x7F == (if y == 0 then 0x00 else 0x40) + (if x > 15 then 15 else x)
    ensures CursorCommand(x, y) & 0x7F <= 0x0F || 0x40 <= CursorCommand(x, y) & 0x7F <= 0x4F
  {
  }

  /** Out-of-range positions are clamped to the last column and the second row. */
  lemma CursorClamps(x: bv8, y: bv8)
    requires x > 15 && y > 1
    ensures CursorCommand(x, y) == CursorCommand(15, 1) == 0xCF
  {
  }

  /** The characters of a NUL-terminated string, up to the terminator. */
  function CString(str: seq<bv8>): (text: seq<bv8>)
    requires 0 in str
    ensures |text| < |str| && text == str[..|text|] && str[|text|] == 0
    ensures 0 !in text
  {
    if str[0] == 0 then [] else [str[0]] + CString(str[1..])
  }

  /** The expander bytes of `text` written character by character. */
  function CharFrames(text: seq<bv8>, state: bv8): (f: seq<bv8>)
    ensures |f| == 4 * |text|
  {
    if text == [] then []
    else CharFrames(text[..|text| - 1], state) + Frames(text[|text| - 1], true, false, false, state)
  }

  lemma {:induction false} CharFramesConcat(a: seq<bv8>, b: seq<bv8>, state: bv8)
    ensures CharFrames(a + b, state) == CharFrames(a, state) + CharFrames(b, state)
    decreases |b|
  {
    if b == [] {
      assert a + b == a;
    } else {
      var init := b[..|b| - 1];
      assert (a + b)[..|a + b| - 1] == a + init;
      assert (a + b)[|a + b| - 1] == b[|b| - 1];
      CharFramesConcat(a, init, state);
      AppendAssoc(CharFrames(a, state), CharFrames(init, state), Frames(b[|b| - 1], true, false, false, state));
    }
  }

  /** Writing one more character appends its frames. */
  lemma CharFramesNext(text: seq<bv8>, i: nat, state: bv8)
    requires i < |text|
    ensures CharFrames(text[..i + 1], state)
      == CharFrames(text[..i], state) + Frames(text[i], true, false, false, state)
  {
    assert text[..i + 1][..i] == text[..i];
  }

  /** Bytes 4i..4i+3 of a string's frames are the frames of its i-th character. */
  lemma CharFramesAt(text: seq<bv8>, i: nat, state: bv8)
    requires i < |text|
    ensures CharFrames(text, state)[4 * i..4 * i + 4] == Frames(text[i], true, false, false, state)
  {
    assert text == text[..i + 1] + text[i + 1..];
    CharFramesConcat(text[..i + 1], text[i + 1..], state);
    CharFramesNext(text, i, state);
  }

  /** The controller receives the characters of `text`, in order, each as data (RS set). */
  lemma CharFramesCarryText(text: seq<bv8>, i: nat, state: bv8)
    requires state == 0 || state == BT
    requires i < |text|
    ensures Latched(CharFrames(text, state)[4 * i..4 * i + 4]) == text[i]
  {
    CharFramesAt(text, i, state);
    FramesRoundTrip(text[i], true, false, state);
  }

  /**
   * With the backlight on, clearing, homing the cursor and writing "AB"
   * puts these bytes on the expander: four per instruction or character,
   * every one with the backlight bit (0x08) set.
   */
  lemma ClearHomeAB()
    ensures Frames(CLEAR, false, false, false, BT)
      + Frames(CursorCommand(0, 0), false, false, false, BT)
      + CharFrames([0x41, 0x42], BT)
      == [0x0C, 0x08, 0x1C, 0x18,
          0x8C, 0x88, 0x0C, 0x08,
          0x4D, 0x49, 0x1D, 0x19,
          0x4D, 0x49, 0x2D, 0x29]
  {
    assert CharFrames([0x41, 0x42], BT)
      == CharFrames([0x41], BT) + Frames(0x42, true, false, false, BT);
    assert CharFrames([0x41], BT) == CharFrames([], BT) + Frames(0x41, true, false, false, BT);
  }

  /** The 4-bit wake-up: 0x3 three times, then 0x2, high nibbles only. */
  function WakeUpFrames(state: bv8): (f: seq<bv8>)
    ensures |f| == 8
  {
    Frames(WAKE_UP, false, false, true, state)
    + (Frames(WAKE_UP, false, false, true, state)
    + (Frames(WAKE_UP, false, false, true, state)
    + Frames(FOUR_BIT, false, false, true, state)))
  }

  /** Function set, display on, clear, left to right: full transfers. */
  function ConfigureFrames(state: bv8): (f: seq<bv8>)
    ensures |f| == 16
  {
    Frames(FUNCTION_SET, false, false, false, state)
    + (Frames(DISPLAY_ON, false, false, false, state)
    + (Frames(CLEAR, false, false, false, state)
    + Frames(LEFT_TO_RIGHT, false, false, false, state)))
  }

  /**
   * Everything `lcd_init` writes to the expander when no write fails:
   * 0x00 to clear the expander, the wake-up, the configuration (all with
   * the backlight as it was), and display-on again with the backlight on.
   */
  function InitBytes(state: bv8): (f: seq<bv8>)
    ensures |f| == 29
  {
    [0x00] + (WakeUpFrames(state) + (ConfigureFrames(state) + Frames(DISPLAY_ON, false, false, false, BT)))
  }

  /** From power-on (backlight bit clear) the initialisation writes exactly these bytes. */
  lemma InitBytesFromReset()
    ensures InitBytes(0) == [
      0x00,
      0x34, 0x30, 0x34, 0x30, 0x34, 0x30, 0x24, 0x20,
      0x24, 0x20, 0x84, 0x80,
      0x04, 0x00, 0xC4, 0xC0,
      0x04, 0x00, 0x14, 0x10,
      0x04, 0x00, 0x64, 0x60,
      0x0C, 0x08, 0xCC, 0xC8]
  {
  }

  /** Where each call of the wake-up sits in its bytes. */
  lemma WakeUpPieces(state: bv8)
    ensures var f := WakeUpFrames(state); var wake := Frames(WAKE_UP, false, false, true, state);
      && f[0..2] == wake && f[2..4] == wake && f[4..6] == wake
      && f[6..8] == Frames(FOUR_BIT, false, false, true, state)
  {
  }

  /** Where each call of the configuration sits in its bytes. */
  lemma ConfigurePieces(state: bv8)
    ensures var f := ConfigureFrames(state);
      && f[0..4] == Frames(FUNCTION_SET, false, false, false, state)
      && f[4..8] == Frames(DISPLAY_ON, false, false, false, state)
      && f[8..12] == Frames(CLEAR, false, false, false, state)
      && f[12..16] == Frames(LEFT_TO_RIGHT, false, false, false, state)
  {
  }

  /** Where each step of the initialisation sits in its bytes. */
  lemma InitPieces(state: bv8)
    ensures var f := InitBytes(state);
      && f[0..1] == [0x00]
      && f[1..9] == WakeUpFrames(state)
      && f[9..25] == ConfigureFrames(state)
      && f[25..29] == Frames(DISPLAY_ON, false, false, false, BT)
  {
  }

  /** The globals of the LCD module and the I2C writes they lead to. */
  class Display {
    /** Status of the k-th expander write. */
    const bus: nat -> Status
    /** Bytes written to the expander so far, in order. */
    var sent: seq<bv8>
    /** `display_state`: only the backlight bit is ever set. */
    var displayState: bv8

    ghost predicate Valid()
      reads this
    {
      displayState == 0 || displayState == BT
    }

    constructor (bus: nat -> Status)
      ensures Valid()
      ensures this.bus == bus && sent == [] && displayState == 0
    {
      this.bus := bus;
      sent := [];
      displayState := 0;
    }

    /**
     * `lcd_init`: clears the expander, runs the 4-bit wake-up and the
     * configuration, then switches the backlight on. A failure of the
     * very first write is returned as it is; any later one as ERROR.
     * The backlight bit is set only once the configuration went through.
     */
    method Init() returns (s: Status)
      requires Valid()
      modifies this
      ensures Valid()
      ensures var n := |old(sent)|; var f := InitBytes(old(displayState));
        && sent == old(sent) + f[..Attempts(bus, n, |f|)]
        && s == (if bus(n) != Success then bus(n) else if Succeeds(bus, n, |f|) then Success else Error)
        && displayState == if Succeeds(bus, n, 25) then BT else old(displayState)
    {
      ghost var start := sent;
      ghost var state := displayState;
      ghost var plan := InitBytes(state);
      InitPieces(state);
      ghost var before := sent;
      s := ExpanderWrite(0x00);
      assert [0x00][..Attempts(bus, |before|, 1)] == [0x00];
      SendStep(bus, start, plan, 0, 1, before, [0x00]);
      if s != Success {
        return s;
      }
      before := sent;
      s := WakeUp();
      SendStep(bus, start, plan, 1, 9, before, WakeUpFrames(state));
      if s != Success {
        SucceedsConcat(bus, |start|, 9, 16, |start| + 9, 25);
        return Error;
      }
      before := sent;
      s := Configure();
      SendStep(bus, start, plan, 9, 25, before, ConfigureFrames(state));
      if s != Success {
        return Error;
      }
      before := sent;
      s := Backlight(true);
      SendStep(bus, start, plan, 25, 29, before, Frames(DISPLAY_ON, false, false, false, BT));
      if s != Success {
        return Error;
      }
      AttemptsAll(bus, |start|, 29);
      return Success;
    }

    /** The four half transfers of the 4-bit wake-up in `lcd_init`. */
    method WakeUp() returns (s: Status)
      modifies this`sent
      ensures var f := WakeUpFrames(displayState);
        && sent == old(sent) + f[..Attempts(bus, |old(sent)|, |f|)]
        && s == if Succeeds(bus, |old(sent)|, |f|) then Success else Error
    {
      ghost var start := sent;
      ghost var state := displayState;
      ghost var plan := WakeUpFrames(state);
      ghost var wake := Frames(WAKE_UP, false, false, true, state);
      WakeUpPieces(state);
      ghost var before := sent;
      s := WriteData(WAKE_UP, false, false, true);
      SendStep(bus, start, plan, 0, 2, before, wake);
      if s != Success {
        return Error;
      }
      before := sent;
      s := WriteData(WAKE_UP, false, false, true);
      SendStep(bus, start, plan, 2, 4, before, wake);
      if s != Success {
        return Error;
      }
      before := sent;
      s := WriteData(WAKE_UP, false, false, true);
      SendStep(bus, start, plan, 4, 6, before, wake);
      if s != Success {
        return Error;
      }
      before := sent;
      s := WriteData(FOUR_BIT, false, false, true);
      SendStep(bus, start, plan, 6, 8, before, Frames(FOUR_BIT, false, false, true, state));
      if s != Success {
        return Error;
      }
      AttemptsAll(bus, |start|, 8);
      return Success;
    }

    /**
     * The configuration in `lcd_init`: function set, display on, clear and
     * left to right.
     */
    method Configure() returns (s: Status)
      modifies this`sent
      ensures var f := ConfigureFrames(displayState);
        && sent == old(sent) + f[..Attempts(bus, |old(sent)|, |f|)]
        && s == if Succeeds(bus, |old(sent)|, |f|) then Success else Error
    {
      ghost var start := sent;
      ghost var state := displayState;
      ghost var plan := ConfigureFrames(state);
      ConfigurePieces(state);
      ghost var before := sent;
      s := WriteData(FUNCTION_SET, false, false, false);
      SendStep(bus, start, plan, 0, 4, before, Frames(FUNCTION_SET, false, false, false, state));
      if s != Success {
        return Error;
      }
      before := sent;
      s := Enable(true);
      SendStep(bus, start, plan, 4, 8, before, Frames(DISPLAY_ON, false, false, false, state));
      if s != Success {
        return Error;
      }
      before := sent;
      s := Clear();
      SendStep(bus, start, plan, 8, 12, before, Frames(CLEAR, false, false, false, state));
      if s != Success {
        return Error;
      }
      before := sent;
      s := LeftToRight();
      SendStep(bus, start, plan, 12, 16, before, Frames(LEFT_TO_RIGHT, false, false, false, state));
      if s != Success {
        return Error;
      }
      AttemptsAll(bus, |start|, 16);
      return Success;
    }

    /** `i2c_write_byte(DISPLAY_ADDRESS, b)`, seen through the status it returns. */
    method ExpanderWrite(b: bv8) returns (s: Status)
      modifies this`sent
      ensures sent == old(sent) + [b]
      ensures s == bus(|old(sent)|)
    {
      sent := sent + [b];
      s := bus(|sent| - 1);
    }

    /**
     * `lcd_write_data`: the frames of `data`, stopping at the first write
     * that fails; SUCCESS or ERROR.
     */
    method WriteData(data: bv8, rs: bool, rw: bool, init: bool) returns (s: Status)
      modifies this`sent
      ensures var f := Frames(data, rs, rw, init, displayState);
        && sent == old(sent) + f[..Attempts(bus, |old(sent)|, |f|)]
        && s == if Succeeds(bus, |old(sent)|, |f|) then Success else Error
    {
      // The high half `data & 0xF0`, the low half `(data & 0x0F) << 4`, each
      // with the RS/RW pins and the backlight bit added.
      var state := displayState;
      assert Frames(data, rs, rw, init, state)
        == var first := Pulse((data & 0xF0) + Control(rs, rw) + state);
           if init then first else first + Pulse(((data & 0x0F) << 4) + Control(rs, rw) + state);
      s := SendPulses(
        (data & 0xF0) + Control(rs, rw) + state,
        ((data & 0x0F) << 4) + Control(rs, rw) + state,
        init);
    }

    /**
     * The writes of `lcd_write_data` once its bytes are formed: the first
     * pulse, then (unless `init`) the second, stopping at the first failure.
     */
    method SendPulses(first: bv8, second: bv8, init: bool) returns (s: Status)
      modifies this`sent
      ensures var f := if init then Pulse(first) else Pulse(first) + Pulse(second);
        && sent == old(sent) + f[..Attempts(bus, |old(sent)|, |f|)]
        && s == if Succeeds(bus, |old(sent)|, |f|) then Success else Error
    {
      ghost var n := |sent|;
      SendConcat(bus, n, Pulse(first), Pulse(second));
      var st := SendPulse(first);
      if st != Success {
        return Error;
      }
      AttemptsAll(bus, n, 2);
      if !init {
        st := SendPulse(second);
        if st != Success {
          return Error;
        }
      }
      return Success;
    }

    /** Two writes of `lcd_write_data`: a nibble with E high, then with E pulled low. */
    method SendPulse(b: bv8) returns (s: Status)
      modifies this`sent
      ensures sent == old(sent) + Pulse(b)[..Attempts(bus, |old(sent)|, 2)]
      ensures s == if Succeeds(bus, |old(sent)|, 2) then Success else Error
    {
      ghost var n := |sent|;
      var st := ExpanderWrite(b + E);
      if st != Success {
        assert Pulse(b)[..1] == [b + E];
        return Error;
      }
      assert Attempts(bus, n + 1, 1) == if bus(n + 1) == Success then 1 + Attempts(bus, n + 2, 0) else 1;
      st := ExpanderWrite(b);
      if st != Success {
        return Error;
      }
      return Success;
    }

    /** `lcd_enable`: display control with the display on or off. */
    method Enable(on: bool) returns (s: Status)
      modifies this`sent
      ensures var f := Frames(if on then DISPLAY_ON else DISPLAY_OFF, false, false, false, displayState);
        && sent == old(sent) + f[..Attempts(bus, |old(sent)|, |f|)]
        && s == if Succeeds(bus, |old(sent)|, |f|) then Success else Error
    {
      if on {
        s := WriteData(DISPLAY_ON, false, false, false);
        if s != Success {
          return s;
        }
      } else {
        s := WriteData(DISPLAY_OFF, false, false, false);
        if s != Success {
          return s;
        }
      }
      return Success;
    }

    /**
     * `lcd_backlight`: sets or clears the backlight bit, then re-sends
     * display control so the expander pins follow; switching the
     * backlight off sends display-off as well.
     */
    method Backlight(on: bool) returns (s: Status)
      requires Valid()
      modifies this
      ensures Valid()
      ensures displayState == if on then BT else 0
      ensures var f := Frames(if on then DISPLAY_ON else DISPLAY_OFF, false, false, false, displayState);
        && sent == old(sent) + f[..Attempts(bus, |old(sent)|, |f|)]
        && s == if Succeeds(bus, |old(sent)|, |f|) then Success else Error
    {
      if on {
        displayState := displayState | BT;
        s := WriteData(DISPLAY_ON, false, false, false);
        if s != Success {
          return s;
        }
      } else {
        displayState := displayState & !BT;
        s := WriteData(DISPLAY_OFF, false, false, false);
        if s != Success {
          return s;
        }
      }
      return Success;
    }

    /** `lcd_clear`. */
    method Clear() returns (s: Status)
      modifies this`sent
      ensures var f := Frames(CLEAR, false, false, false, displayState);
        && sent == old(sent) + f[..Attempts(bus, |old(sent)|, |f|)]
        && s == if Succeeds(bus, |old(sent)|, |f|) then Success else Error
    {
      var st := WriteData(CLEAR, false, false, false);
      if st != Success {
        return Error;
      }
      return Success;
    }

    /** `lcd_moveCursor`: set DDRAM address to the clamped position. */
    method MoveCursor(x: bv8, y: bv8) returns (s: Status)
      modifies this`sent
      ensures var f := Frames(CursorCommand(x, y), false, false, false, displayState);
        && sent == old(sent) + f[..Attempts(bus, |old(sent)|, |f|)]
        && s == if Succeeds(bus, |old(sent)|, |f|) then Success else Error
    {
      var column := x;
      var row := y;
      if column > 15 {
        column := 15;
      }
      if row > 1 {
        row := 1;
      }
      var st := WriteData(D7 + ROW_OFFSET[row as int] + column, false, false, false);
      if st != Success {
        return Error;
      }
      return Success;
    }

    /** `lcd_putChar`: one character as data (RS set). */
    method PutChar(c: bv8) returns (s: Status)
      modifies this`sent
      ensures var f := Frames(c, true, false, false, displayState);
        && sent == old(sent) + f[..Attempts(bus, |old(sent)|, |f|)]
        && s == if Succeeds(bus, |old(sent)|, |f|) then Success else Error
    {
      var st := WriteData(c, true, false, false);
      if st != Success {
        return Error;
      }
      return Success;
    }

    /**
     * `lcd_putString`: the characters before the NUL, one after another,
     * stopping at the first one that fails.
     */
    method PutString(str: seq<bv8>) returns (s: Status)
      requires 0 in str
      modifies this`sent
      ensures var f := CharFrames(CString(str), displayState);
        && sent == old(sent) + f[..Attempts(bus, |old(sent)|, |f|)]
        && s == if Succeeds(bus, |old(sent)|, |f|) then Success else Error
    {
      ghost var n := |sent|;
      ghost var text := CString(str);
      var i := 0;
      while str[i] != 0
        invariant i <= |text|
        invariant sent == old(sent) + CharFrames(text, displayState)[..4 * i]
        invariant Succeeds(bus, n, 4 * i)
        decreases |text| - i
      {
        s := PutNext(str, i, text, n, old(sent));
        if s != Success {
          return;
        }
        i := i + 1;
      }
      AttemptsAll(bus, n, 4 * |text|);
      return Success;
    }

    /** One pass of `lcd_putString`'s loop: the i-th character. */
    method PutNext(str: seq<bv8>, i: nat, ghost text: seq<bv8>, ghost n: nat, ghost start: seq<bv8>)
      returns (s: Status)
      requires 0 in str && text == CString(str) && i < |text|
      requires n == |start| && sent == start + CharFrames(text, displayState)[..4 * i]
      requires Succeeds(bus, n, 4 * i)
      modifies this`sent
      ensures var f := CharFrames(text, displayState);
        && (s == Success ==> Succeeds(bus, n, 4 * (i + 1)) && sent == start + f[..4 * (i + 1)])
        && (s != Success ==> s == Error && !Succeeds(bus, n, |f|) && sent == start + f[..Attempts(bus, n, |f|)])
    {
      ghost var state := displayState;
      ghost var before := sent;
      CharFramesAt(text, i, state);
      assert str[i] == text[i];
      s := WriteData(str[i], true, false, false);
      SendStep(bus, start, CharFrames(text, state), 4 * i, 4 * (i + 1), before, Frames(str[i], true, false, false, state));
    }

    /** `lcd_leftToRight`: entry mode, cursor incrementing. */
    method LeftToRight() returns (s: Status)
      modifies this`sent
      ensures var f := Frames(LEFT_TO_RIGHT, false, false, false, displayState);
        && sent == old(sent) + f[..Attempts(bus, |old(sent)|, |f|)]
        && s == if Succeeds(bus, |old(sent)|, |f|) then Success else Error
    {
      var st := WriteData(LEFT_TO_RIGHT, false, false, false);
      if st != Success {
        return Error;
      }
      return Success;
    }

    /** `lcd_rightToLeft`: entry mode, cursor decrementing. */
    method RightToLeft() returns (s: Status)
      modifies this`sent
      ensures var f := Frames(RIGHT_TO_LEFT, false, false, false, displayState);
        && sent == old(sent) + f[..Attempts(bus, |old(sent)|, |f|)]
        && s == if Succeeds(bus, |old(sent)|, |f|) then Success else Error
    {
      var st := WriteData(RIGHT_TO_LEFT, false, false, false);
      if st != Success {
        return Error;
      }
      return Success;
    }
  }
}
