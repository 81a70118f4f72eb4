/**
 * The receive logic of the RGB demo's USART3 interrupt handler: characters
 * are collected into `USART_buffer` until a '.' ends the message, which is
 * then NUL-terminated and announced through the `data_received` flag.
 */
module UsartReceive {

  /** `sizeof(USART_buffer)`. */
  const BUFFER_SIZE: nat := 64

  /** The character that ends a message. */
  const END_OF_MESSAGE: char := '.'

  /** The handler's three globals, as a value. */
  datatype RxState = RxState(buffer: seq<char>, index: nat, received: bool)

  /** The buffer has its declared size and the index always names a cell of it. */
  predicate Inv(s: RxState) {
    |s.buffer| == BUFFER_SIZE && s.index <= BUFFER_SIZE - 1
  }

  /** What one run of the handler does to the globals when `c` arrives. */
  function Receive(s: RxState, c: char): (t: RxState)
    requires Inv(s)
    ensures Inv(t)
  {
    if c == END_OF_MESSAGE then
      RxState(s.buffer[s.index := '\0'], 0, true)
    else if s.index < BUFFER_SIZE - 1 then
      RxState(s.buffer[s.index := c], s.index + 1, s.received)
    else
      s
  }

  /** The handler run once per character of `cs`, in arrival order. */
  function ReceiveAll(s: RxState, cs: seq<char>): (t: RxState)
    requires Inv(s)
    ensures Inv(t)
    decreases |cs|
  {
    if cs == [] then s else ReceiveAll(Receive(s, cs[0]), cs[1..])
  }

  /** The end of a message: NUL at the current index, index back to 0, flag raised. */
  lemma EndOfMessage(s: RxState)
    requires Inv(s)
    ensures Receive(s, END_OF_MESSAGE).buffer[s.index] == '\0'
    ensures forall i :: 0 <= i < BUFFER_SIZE && i != s.index ==>
      Receive(s, END_OF_MESSAGE).buffer[i] == s.buffer[i]
    ensures Receive(s, END_OF_MESSAGE).index == 0
    ensures Receive(s, END_OF_MESSAGE).received
  {
  }

  /** A character that finds the buffer full (index 63) is dropped. */
  lemma OverflowDropped(s: RxState, c: char)
    requires Inv(s) && s.index == BUFFER_SIZE - 1 && c != END_OF_MESSAGE
    ensures Receive(s, c) == s
  {
  }

  /**
   * Characters of one message that fit are stored in arrival order from the
   * current index on; nothing else in the buffer changes.
   */
  lemma {:induction false} StoredInArrivalOrder(s: RxState, cs: seq<char>)
    requires Inv(s) && s.index + |cs| <= BUFFER_SIZE - 1
    requires END_OF_MESSAGE !in cs
    ensures ReceiveAll(s, cs).index == s.index + |cs|
    ensures ReceiveAll(s, cs).buffer[s.index..s.index + |cs|] == cs
    ensures ReceiveAll(s, cs).buffer[..s.index] == s.buffer[..s.index]
    ensures ReceiveAll(s, cs).buffer[s.index + |cs|..] == s.buffer[s.index + |cs|..]
    ensures ReceiveAll(s, cs).received == s.received
    decreases |cs|
  {
    if cs != [] {
      var s' := Receive(s, cs[0]);
      assert END_OF_MESSAGE !in cs[1..];
      StoredInArrivalOrder(s', cs[1..]);
      var t := ReceiveAll(s, cs);
      assert t.buffer[s.index + 1..s.index + |cs|] == cs[1..];
      assert t.buffer[..s'.index] == s'.buffer[..s'.index];
      assert t.buffer[s.index] == cs[0];
      assert t.buffer[..s.index] == s'.buffer[..s.index];
    }
  }

  /** From an empty buffer, k <= 63 characters land at positions 0..k-1. */
  lemma FirstMessageStored(s: RxState, cs: seq<char>)
    requires Inv(s) && s.index == 0 && |cs| <= BUFFER_SIZE - 1
    requires END_OF_MESSAGE !in cs
    ensures ReceiveAll(s, cs).buffer[..|cs|] == cs
    ensures ReceiveAll(s, cs).index == |cs|
  {
    StoredInArrivalOrder(s, cs);
  }

  /** Once the buffer is full, every further character of the message is dropped. */
  lemma {:induction false} OverflowKeepsFirst(s: RxState, cs: seq<char>)
    requires Inv(s) && s.index + |cs| > BUFFER_SIZE - 1
    requires END_OF_MESSAGE !in cs
    ensures ReceiveAll(s, cs) == ReceiveAll(s, cs[..BUFFER_SIZE - 1 - s.index])
    decreases |cs|
  {
    if s.index == BUFFER_SIZE - 1 {
      DroppedWhileFull(s, cs);
    } else {
      assert cs[..BUFFER_SIZE - 1 - s.index][1..] == cs[1..][..BUFFER_SIZE - 1 - (s.index + 1)];
      assert END_OF_MESSAGE !in cs[1..];
      OverflowKeepsFirst(Receive(s, cs[0]), cs[1..]);
    }
  }

  lemma {:induction false} DroppedWhileFull(s: RxState, cs: seq<char>)
    requires Inv(s) && s.index == BUFFER_SIZE - 1
    requires END_OF_MESSAGE !in cs
    ensures ReceiveAll(s, cs) == s
    decreases |cs|
  {
    if cs != [] {
      assert END_OF_MESSAGE !in cs[1..];
      DroppedWhileFull(Receive(s, cs[0]), cs[1..]);
    }
  }

  /** The '.' itself is never stored in the buffer. */
  lemma {:induction false} PeriodNeverStored(s: RxState, cs: seq<char>)
    requires Inv(s) && END_OF_MESSAGE !in s.buffer
    ensures END_OF_MESSAGE !in ReceiveAll(s, cs).buffer
    decreases |cs|
  {
    if cs != [] {
      var s' := Receive(s, cs[0]);
      assert END_OF_MESSAGE !in s'.buffer by {
        forall i | 0 <= i < |s'.buffer|
          ensures s'.buffer[i] != END_OF_MESSAGE
        {
          assert s'.buffer[i] == s.buffer[i] || s'.buffer[i] == '\0' || s'.buffer[i] == cs[0] != END_OF_MESSAGE;
        }
      }
      PeriodNeverStored(s', cs[1..]);
    }
  }

  /**
   * The handler only ever raises the flag: after a run of characters it is
   * raised exactly when it was raised before or a '.' arrived.
   */
  lemma {:induction false} FlagOnlyRaised(s: RxState, cs: seq<char>)
    requires Inv(s)
    ensures ReceiveAll(s, cs).received <==> s.received || END_OF_MESSAGE in cs
    decreases |cs|
  {
    if cs != [] {
      FlagOnlyRaised(Receive(s, cs[0]), cs[1..]);
      assert cs == [cs[0]] + cs[1..];
    }
  }

  /** The globals `USART_buffer`, `usart_index` and `data_received`. */
  class Receiver {
    var buffer: array<char>
    var index: nat
    var dataReceived: bool

    ghost predicate Valid()
      reads this
    {
      buffer.Length == BUFFER_SIZE && index <= BUFFER_SIZE - 1
    }

    ghost function State(): RxState
      reads this, buffer
    {
      RxState(buffer[..], index, dataReceived)
    }

    /** Zero-initialised globals at program start. */
    constructor ()
      ensures Valid() && fresh(buffer)
      ensures State() == RxState(seq(BUFFER_SIZE, _ => '\0'), 0, false)
    {
      buffer := new char[BUFFER_SIZE](_ => '\0');
      index := 0;
      dataReceived := false;
    }

    /** `ISR(USART3_RXC_vect)` with `received` read from `USART3_RXDATAL`. */
    method OnReceive(received: char)
      requires Valid()
      modifies this`index, this`dataReceived, buffer
      ensures Valid()
      ensures State() == Receive(old(State()), received)
    {
      if received == END_OF_MESSAGE {
        buffer[index] := '\0';
        index := index + 1;
        index := 0;
        dataReceived := true;
      } else if index < buffer.Length - 1 {
        buffer[index] := received;
        index := index + 1;
      }
    }
  }
}
