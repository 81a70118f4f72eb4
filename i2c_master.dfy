/** `i2c_status`, the result of every I2C transfer and of every LCD call. */
module I2cStatus {
  datatype Status = Success | Error | ErrorNotReady | Nack | ArbitrationLost
}

/**
 * The polled I2C (TWI0) master driver of the AVR128DB48: 7-bit addressing,
 * one blocking transaction per call, a closed status code as the only
 * result.
 *
 * The peripheral is modelled by what the driver sees and does:
 * - `hw(k)` is the MSTATUS/MDATA snapshot the hardware shows when the k-th
 *   completion wait (`wait_for_state_change`) returns;
 * - `regs` is the trace of the driver's writes to MADDR, MDATA, MCTRLB and
 *   MSTATUS, in program order;
 * - each transfer is given the MSTATUS its idle test reads on entry.
 */
module I2cMaster {

  /** `uint8_t` used as a count (the buffer lengths). */
  type Uint8 = n: nat | n < 0x100

  import opened I2cStatus

  // TWI0.MSTATUS bit masks and group codes.
  const CLKHOLD_bm: bv8 := 0x20
  const RXACK_bm: bv8 := 0x10
  /** The bit POSITION of RXACK, which `check_errors` uses as a mask. */
  const RXACK_bp: bv8 := 4
  const ARBLOST_bm: bv8 := 0x08
  const BUSERR_bm: bv8 := 0x04
  const BUSSTATE_gm: bv8 := 0x03
  const BUSSTATE_IDLE_gc: bv8 := 0x01
  const BUSSTATE_BUSY_gc: bv8 := 0x03

  // TWI0.MCTRLB command and acknowledge-action codes.
  const MCMD_RECVTRANS_gc: bv8 := 0x02
  const MCMD_STOP_gc: bv8 := 0x03
  const ACKACT_ACK_gc: bv8 := 0x00
  const ACKACT_NACK_gc: bv8 := 0x04

  // Direction bit appended to the 7-bit address.
  const I2C_WRITE: bv8 := 0
  const I2C_READ: bv8 := 1

  /** One write to a TWI0 register. */
  datatype RegWrite = MAddr(value: bv8) | MData(value: bv8) | MCtrlB(value: bv8) | MStatus(value: bv8)

  /** MSTATUS and MDATA as they read. */
  datatype Snapshot = Snapshot(mstatus: bv8, mdata: bv8)

  const STOP: RegWrite := MCtrlB(MCMD_STOP_gc)
  const ACK_NEXT: RegWrite := MCtrlB(ACKACT_ACK_gc | MCMD_RECVTRANS_gc)
  const NACK_STOP: RegWrite := MCtrlB(ACKACT_NACK_gc | MCMD_STOP_gc)
  /** Writing CLKHOLD to MSTATUS clears the flag and releases the clock. */
  const RELEASE_CLOCK: RegWrite := MStatus(CLKHOLD_bm)

  /** The "master is idle" test every transfer starts with. */
  predicate IdleTest(mstatus: bv8) {
    mstatus & BUSSTATE_IDLE_gc == BUSSTATE_IDLE_gc
  }

  /**
   * The test masks with the IDLE group code rather than the BUSSTATE group
   * mask, so it looks at bit 0 alone: it lets BUSY (0b11) through as well as
   * IDLE (0b01), and refuses UNKNOWN (0b00) and OWNER (0b10).
   */
  lemma IdleTestAcceptsBusy(mstatus: bv8)
    ensures IdleTest(mstatus) <==>
      mstatus & BUSSTATE_gm == BUSSTATE_IDLE_gc || mstatus & BUSSTATE_gm == BUSSTATE_BUSY_gc
  {
  }

  /** The slave did not acknowledge the last byte. */
  predicate Nacked(mstatus: bv8) {
    mstatus & RXACK_bm != 0
  }

  /** The exit condition of `wait_for_state_change`. */
  predicate WaitEnds(mstatus: bv8) {
    || mstatus & CLKHOLD_bm != 0
    || mstatus & BUSERR_bm != 0
    || mstatus & ARBLOST_bm != 0
    || mstatus & BUSSTATE_BUSY_gc == BUSSTATE_BUSY_gc
  }

  /**
   * A snapshot a completion wait can return with: the poll has no timeout,
   * so a bus that never ends the wait is outside the model.
   */
  type Completion = s: Snapshot | WaitEnds(s.mstatus) witness Snapshot(CLKHOLD_bm, 0)

  /** The byte written to MADDR: the 7-bit address shifted left, direction in bit 0. */
  function AddressByte(address: bv8, dir: bv8): bv8
  {
    (address << 1) | dir
  }

  /**
   * The address byte holds the low seven address bits above the direction
   * bit (the shift drops bit 7); `i2c_read`'s `(address << 1) + I2C_READ`
   * is the same byte.
   */
  lemma AddressByteLayout(address: bv8, dir: bv8)
    requires dir == I2C_WRITE || dir == I2C_READ
    ensures AddressByte(address, dir) & 1 == dir
    ensures AddressByte(address, dir) >> 1 == address & 0x7F
    ensures AddressByte(address, dir) == (address << 1) + dir
  {
  }

  /**
   * `check_errors` as written: the first test masks MSTATUS with
   * `TWI_RXACK_bp` (4), which is the BUSERR bit, so a bus error is reported
   * as NACK, the BUSERR test behind it can never fire, and RXACK itself is
   * never looked at.
   */
  function ErrorCheck(mstatus: bv8): Status
  {
    if mstatus & RXACK_bp != 0 then Nack
    else if mstatus & ARBLOST_bm != 0 then ArbitrationLost
    else if mstatus & BUSERR_bm != 0 then Error
    else if mstatus & BUSSTATE_BUSY_gc == BUSSTATE_BUSY_gc then ErrorNotReady
    else Success
  }

  /** What each result of the as-written check means in terms of MSTATUS flags. */
  lemma ErrorCheckFlags(mstatus: bv8)
    ensures ErrorCheck(mstatus) == Nack <==> mstatus & BUSERR_bm != 0
    ensures ErrorCheck(mstatus) == ArbitrationLost <==>
      mstatus & BUSERR_bm == 0 && mstatus & ARBLOST_bm != 0
    ensures ErrorCheck(mstatus) == ErrorNotReady <==>
      mstatus & (BUSERR_bm | ARBLOST_bm) == 0 && mstatus & BUSSTATE_gm == BUSSTATE_BUSY_gc
    ensures ErrorCheck(mstatus) == Success <==>
      mstatus & (BUSERR_bm | ARBLOST_bm) == 0 && mstatus & BUSSTATE_gm != BUSSTATE_BUSY_gc
    ensures ErrorCheck(mstatus) != Error
  {
  }

  /**
   * `check_errors` as its comments describe it, with the RXACK bit mask:
   * NACK, then arbitration lost, then bus error, then busy.
   */
  function ErrorCheckIntended(mstatus: bv8): (s: Status)
    ensures s == Nack <==> mstatus & RXACK_bm != 0
    ensures s == ArbitrationLost <==> mstatus & RXACK_bm == 0 && mstatus & ARBLOST_bm != 0
    ensures s == Error <==> mstatus & (RXACK_bm | ARBLOST_bm) == 0 && mstatus & BUSERR_bm != 0
    ensures s == ErrorNotReady <==>
      mstatus & (RXACK_bm | ARBLOST_bm | BUSERR_bm) == 0 && mstatus & BUSSTATE_gm == BUSSTATE_BUSY_gc
    ensures s == Success <==>
      mstatus & (RXACK_bm | ARBLOST_bm | BUSERR_bm) == 0 && mstatus & BUSSTATE_gm != BUSSTATE_BUSY_gc
  {
    if mstatus & RXACK_bm != 0 then Nack
    else if mstatus & ARBLOST_bm != 0 then ArbitrationLost
    else if mstatus & BUSERR_bm != 0 then Error
    else if mstatus & BUSSTATE_BUSY_gc == BUSSTATE_BUSY_gc then ErrorNotReady
    else Success
  }

  /**
   * The two checks disagree: a slave that does not acknowledge (clock held,
   * RXACK set, bus idle) passes the as-written check, and a bus error is
   * reported as NACK.
   */
  lemma NackMaskedAsBusError()
    ensures ErrorCheck(CLKHOLD_bm | RXACK_bm | BUSSTATE_IDLE_gc) == Success
    ensures ErrorCheckIntended(CLKHOLD_bm | RXACK_bm | BUSSTATE_IDLE_gc) == Nack
    ensures ErrorCheck(CLKHOLD_bm | BUSERR_bm | BUSSTATE_IDLE_gc) == Nack
    ensures ErrorCheckIntended(CLKHOLD_bm | BUSERR_bm | BUSSTATE_IDLE_gc) == Error
  {
  }

  /** Where neither RXACK nor BUSERR is set, the two checks agree. */
  lemma ErrorCheckAgrees(mstatus: bv8)
    requires mstatus & (RXACK_bm | BUSERR_bm) == 0
    ensures ErrorCheck(mstatus) == ErrorCheckIntended(mstatus)
  {
  }

  /** The check the driver runs: as written, or with the RXACK bit mask. */
  function ErrorCheckOf(literal: bool, mstatus: bv8): Status
  {
    if literal then ErrorCheck(mstatus) else ErrorCheckIntended(mstatus)
  }

  /** The STOP that `check_errors` issues before every non-SUCCESS return. */
  function StopOnError(s: Status): (w: seq<RegWrite>)
    ensures |w| <= 1 && (w == [] <==> s == Success)
  {
    if s == Success then [] else [STOP]
  }

  /** The MDATA writes that transmit `d`, in order. */
  function DataWrites(d: seq<bv8>): (w: seq<RegWrite>)
    ensures |w| == |d|
  {
    if d == [] then [] else DataWrites(d[..|d| - 1]) + [MData(d[|d| - 1])]
  }

  /** The i-th write transmits the i-th byte. */
  lemma {:induction false} DataWritesAt(d: seq<bv8>, i: nat)
    requires i < |d|
    ensures DataWrites(d)[i] == MData(d[i])
    decreases |d|
  {
    if i < |d| - 1 {
      DataWritesAt(d[..|d| - 1], i);
    }
  }

  /**
   * Among `n` data bytes whose completion snapshots are hw(k), hw(k+1), ...,
   * the index of the first one the slave did not acknowledge (RXACK set);
   * `n` if it acknowledged them all.
   */
  function FirstNack(hw: nat -> Completion, k: nat, n: nat): (i: nat)
    ensures i <= n
    decreases n
  {
    if n == 0 || Nacked(hw(k).mstatus) then 0 else 1 + FirstNack(hw, k + 1, n - 1)
  }

  /** FirstNack finds an unacknowledged byte, and none comes before it. */
  lemma {:induction false} FirstNackFound(hw: nat -> Completion, k: nat, n: nat)
    ensures forall j :: k <= j < k + FirstNack(hw, k, n) ==> !Nacked(hw(j).mstatus)
    ensures FirstNack(hw, k, n) < n ==> Nacked(hw(k + FirstNack(hw, k, n)).mstatus)
    decreases n
  {
    if n > 0 && !Nacked(hw(k).mstatus) {
      FirstNackFound(hw, k + 1, n - 1);
    }
  }

  /**
   * Scanning forward from a byte no later than FirstNack: that byte is the
   * first unacknowledged one exactly when its own snapshot shows RXACK.
   */
  lemma {:induction false} FirstNackStep(hw: nat -> Completion, k: nat, n: nat, p: nat)
    requires p < n && p <= FirstNack(hw, k, n)
    ensures Nacked(hw(k + p).mstatus) <==> FirstNack(hw, k, n) == p
    decreases p
  {
    if p > 0 {
      FirstNackStep(hw, k + 1, n - 1, p - 1);
    }
  }

  /**
   * How many data bytes `i2c_write` hands to MDATA: all of them, or those up
   * to and including the first one not acknowledged.
   */
  function SentCount(hw: nat -> Completion, k: nat, n: nat): (c: nat)
    ensures c <= n
    ensures c == n || c == FirstNack(hw, k, n) + 1
  {
    var i := FirstNack(hw, k, n); if i < n then i + 1 else i
  }

  /** A byte that is the first not acknowledged is what FirstNack finds. */
  lemma {:induction false} FirstNackAt(hw: nat -> Completion, k: nat, n: nat, p: nat)
    requires p < n
    requires forall j :: k <= j < k + p ==> !Nacked(hw(j).mstatus)
    requires Nacked(hw(k + p).mstatus)
    ensures FirstNack(hw, k, n) == p
    decreases p
  {
    if p > 0 {
      assert !Nacked(hw(k).mstatus);
      FirstNackAt(hw, k + 1, n - 1, p - 1);
    }
  }

  /** When every byte is acknowledged, FirstNack is the byte count. */
  lemma {:induction false} FirstNackNone(hw: nat -> Completion, k: nat, n: nat)
    requires forall j :: k <= j < k + n ==> !Nacked(hw(j).mstatus)
    ensures FirstNack(hw, k, n) == n
    decreases n
  {
    if n > 0 {
      assert !Nacked(hw(k).mstatus);
      FirstNackNone(hw, k + 1, n - 1);
    }
  }

  lemma DataWritesSnoc(d: seq<bv8>, b: bv8)
    ensures DataWrites(d + [b]) == DataWrites(d) + [MData(b)]
  {
    assert (d + [b])[..|d|] == d;
  }

  /** The bytes a buffer read stores: the MDATA of `n` snapshots from hw(k) on. */
  function Received(hw: nat -> Completion, k: nat, n: nat): (d: seq<bv8>)
    ensures |d| == n
  {
    if n == 0 then [] else Received(hw, k, n - 1) + [hw(k + n - 1).mdata]
  }

  /** The i-th stored byte is what MDATA held after the i-th wait of the loop. */
  lemma {:induction false} ReceivedAt(hw: nat -> Completion, k: nat, n: nat, i: nat)
    requires i < n
    ensures Received(hw, k, n)[i] == hw(k + i).mdata
  {
    if i < n - 1 {
      ReceivedAt(hw, k, n - 1, i);
    }
  }

  /** The ACK+RECVTRANS commands of an `n`-byte read: one after each byte but the last. */
  function Acks(n: nat): (w: seq<RegWrite>)
    ensures |w| == if n == 0 then 0 else n - 1
  {
    if n <= 1 then [] else Acks(n - 1) + [ACK_NEXT]
  }

  /** Every command between the bytes of a read is ACK+RECVTRANS. */
  lemma {:induction false} AcksAll(n: nat)
    ensures forall i :: 0 <= i < |Acks(n)| ==> Acks(n)[i] == ACK_NEXT
  {
    if n > 1 {
      AcksAll(n - 1);
    }
  }

  /** TWI0 as one master transaction at a time sees it. */
  class Twi {
    /** The snapshot the k-th completion wait returns with. */
    const hw: nat -> Completion
    /**
     * Which error check the driver runs: the test on the RXACK bit
     * POSITION as the source has it (true), or on the RXACK bit mask.
     */
    const literal: bool
    /** Completion waits so far. */
    var waits: nat
    /**
     * MSTATUS and MDATA as the latest completion wait left them; the driver
     * reads them only right after a wait. The idle test at the start of a
     * transfer reads MSTATUS afresh, so each transfer takes that reading as
     * its `entryStatus`.
     */
    var mstatus: bv8
    var mdata: bv8
    var regs: seq<RegWrite>

    constructor (hw: nat -> Completion, literal: bool)
      ensures this.hw == hw && this.literal == literal && waits == 0 && regs == []
    {
      this.hw := hw;
      this.literal := literal;
      mstatus := 0;
      mdata := 0;
      waits := 0;
      regs := [];
    }

    /** `wait_for_state_change`: blocks until the next snapshot, which ends the wait. */
    method WaitForStateChange()
      modifies this
      ensures waits == old(waits) + 1 && regs == old(regs)
      ensures mstatus == hw(old(waits)).mstatus && mdata == hw(old(waits)).mdata
      ensures WaitEnds(mstatus)
    {
      mstatus := hw(waits).mstatus;
      mdata := hw(waits).mdata;
      waits := waits + 1;
    }

    /**
     * `check_errors`: classifies MSTATUS (as written or with the RXACK mask,
     * as `literal` says), and issues STOP exactly when it reports a failure.
     */
    method CheckErrors() returns (s: Status)
      modifies this`regs
      ensures s == ErrorCheckOf(literal, mstatus)
      ensures regs == old(regs) + StopOnError(s)
    {
      // Each of the four tests that fires issues STOP and returns its status.
      s := ErrorCheckOf(literal, mstatus);
      if s != Success {
        regs := regs + [STOP];
      }
    }

    /**
     * The address phase every transfer starts with: the address byte to
     * MADDR, a completion wait, then `check_errors` on what it returned.
     */
    method AddressPhase(addressByte: bv8) returns (check: Status)
      modifies this
      ensures check == ErrorCheckOf(literal, hw(old(waits)).mstatus)
      ensures waits == old(waits) + 1
      ensures regs == old(regs) + [MAddr(addressByte)] + StopOnError(check)
    {
      regs := regs + [MAddr(addressByte)];
      WaitForStateChange();
      check := CheckErrors();
    }

    /**
     * The data loop of `i2c_write`: each byte to MDATA and a completion wait;
     * a byte the slave does not acknowledge ends the transfer with STOP and
     * NACK, otherwise STOP follows the last byte.
     */
    method TransmitData(data: seq<bv8>, length: Uint8) returns (s: Status)
      requires length <= |data|
      modifies this
      ensures s == (if FirstNack(hw, old(waits), length) < length then Nack else Success)
      ensures waits == old(waits) + SentCount(hw, old(waits), length)
      ensures regs == old(regs) + DataWrites(data[..SentCount(hw, old(waits), length)]) + [STOP]
    {
      ghost var w := waits;
      ghost var first := FirstNack(hw, w, length);
      var pos: nat := 0;
      var nacked := false;
      while pos < length && !nacked
        invariant if nacked then first < length && pos == first + 1 else pos <= first
        invariant waits == w + pos
        invariant regs == old(regs) + DataWrites(data[..pos])
      {
        FirstNackStep(hw, w, length, pos);
        nacked := SendByte(data, pos, old(regs), w);
        pos := pos + 1;
      }
      assert pos == SentCount(hw, w, length);
      // NACK and the end of the data both finish with STOP.
      regs := regs + [STOP];
      s := if nacked then Nack else Success;
    }

    /**
     * One pass of the data loop: byte `pos` to MDATA, a wait, the RXACK test
     * on what the wait returned.
     */
    method SendByte(data: seq<bv8>, pos: nat, ghost r0: seq<RegWrite>, ghost w: nat) returns (nacked: bool)
      requires pos < |data|
      requires waits == w + pos && regs == r0 + DataWrites(data[..pos])
      modifies this
      ensures nacked == Nacked(hw(w + pos).mstatus)
      ensures waits == w + pos + 1 && regs == r0 + DataWrites(data[..pos + 1])
    {
      assert data[..pos + 1] == data[..pos] + [data[pos]];
      DataWritesSnoc(data[..pos], data[pos]);
      regs := regs + [MData(data[pos])];
      WaitForStateChange();
      nacked := Nacked(mstatus);
    }

    /**
     * `i2c_write`: address phase (whose error check may issue STOP but is
     * then ignored), then the data loop; only SUCCESS, NACK or
     * ERROR_NOT_READY can come back.
     */
    method Write(address: bv8, data: seq<bv8>, length: Uint8, entryStatus: bv8) returns (s: Status)
      requires length <= |data|
      modifies this
      ensures s == Success || s == Nack || s == ErrorNotReady
      ensures !IdleTest(entryStatus) ==> s == ErrorNotReady && unchanged(this)
      ensures IdleTest(entryStatus) ==>
        s == (if FirstNack(hw, old(waits) + 1, length) < length then Nack else Success)
      ensures IdleTest(entryStatus) ==>
        waits == old(waits) + 1 + SentCount(hw, old(waits) + 1, length)
      ensures IdleTest(entryStatus) ==>
        regs == old(regs) + [MAddr(AddressByte(address, I2C_WRITE))]
                + StopOnError(ErrorCheckOf(literal, hw(old(waits)).mstatus))
                + DataWrites(data[..SentCount(hw, old(waits) + 1, length)]) + [STOP]
    {
      if !IdleTest(entryStatus) {
        return ErrorNotReady;
      }
      var ignored := AddressPhase(AddressByte(address, I2C_WRITE));
      s := TransmitData(data, length);
    }

    /**
     * `i2c_write_byte`: address phase and data phase, each followed by the
     * full error check; exactly one STOP whichever way it ends.
     */
    method WriteByte(address: bv8, data: bv8, entryStatus: bv8) returns (s: Status)
      modifies this
      ensures !IdleTest(entryStatus) ==> s == ErrorNotReady && unchanged(this)
      ensures IdleTest(entryStatus) ==>
        var w := old(waits);
        var first := ErrorCheckOf(literal, hw(w).mstatus);
        var second := ErrorCheckOf(literal, hw(w + 1).mstatus);
        if first != Success then
          s == first && waits == w + 1
          && regs == old(regs) + [MAddr(AddressByte(address, I2C_WRITE)), STOP]
        else
          s == second && waits == w + 2
          && regs == old(regs) + [MAddr(AddressByte(address, I2C_WRITE)), MData(data), STOP]
    {
      if !IdleTest(entryStatus) {
        return ErrorNotReady;
      }
      s := AddressPhase(AddressByte(address, I2C_WRITE));
      if s != Success {
        return s;
      }
      regs := regs + [MData(data)];
      WaitForStateChange();
      s := CheckErrors();
      if s != Success {
        return s;
      }
      regs := regs + [STOP];
      return Success;
    }

    /**
     * The data loop of `i2c_read` after the clock release: `length` bytes
     * stored in order, ACK+RECVTRANS after each byte but the last, then
     * NACK+STOP.
     */
    method ReceiveData(data: array<bv8>, length: Uint8)
      requires length <= data.Length
      modifies this, data
      ensures waits == old(waits) + length
      ensures data[..length] == Received(hw, old(waits), length)
      ensures data[length..] == old(data[length..])
      ensures regs == old(regs) + Acks(length) + [NACK_STOP]
    {
      ghost var w := waits;
      var pos: nat := 0;
      while pos < length
        invariant pos <= length
        invariant waits == w + pos
        invariant data[..pos] == Received(hw, w, pos)
        invariant data[length..] == old(data[length..])
        invariant regs == old(regs) + Acks(if pos < length then pos + 1 else pos)
      {
        ReceiveByte(data, pos, length, old(regs), w);
        pos := pos + 1;
      }
      regs := regs + [NACK_STOP];
    }

    /**
     * One pass of the read loop: wait for byte `pos`, store it, and send
     * ACK+RECVTRANS unless it was the last.
     */
    method ReceiveByte(data: array<bv8>, pos: nat, length: nat, ghost r0: seq<RegWrite>, ghost w: nat)
      requires pos < length <= data.Length
      requires waits == w + pos && data[..pos] == Received(hw, w, pos)
      requires regs == r0 + Acks(pos + 1)
      modifies this, data
      ensures waits == w + pos + 1 && data[..pos + 1] == Received(hw, w, pos + 1)
      ensures data[pos + 1..] == old(data[pos + 1..])
      ensures regs == r0 + Acks(if pos + 1 < length then pos + 2 else pos + 1)
    {
      WaitForStateChange();
      data[pos] := mdata;
      assert data[..pos + 1] == data[..pos] + [data[pos]];
      if pos + 1 != length {
        regs := regs + [ACK_NEXT];
      }
    }

    /**
     * `i2c_read`: address phase with error check, clock release, then the
     * data loop; SUCCESS once the address phase passed.
     */
    method Read(address: bv8, data: array<bv8>, length: Uint8, entryStatus: bv8) returns (s: Status)
      requires length <= data.Length
      modifies this, data
      ensures !IdleTest(entryStatus) ==> s == ErrorNotReady && unchanged(this) && unchanged(data)
      ensures IdleTest(entryStatus) && ErrorCheckOf(literal, hw(old(waits)).mstatus) != Success ==>
        && s == ErrorCheckOf(literal, hw(old(waits)).mstatus)
        && waits == old(waits) + 1
        && regs == old(regs) + [MAddr(AddressByte(address, I2C_READ)), STOP]
        && unchanged(data)
      ensures IdleTest(entryStatus) && ErrorCheckOf(literal, hw(old(waits)).mstatus) == Success ==>
        && s == Success
        && waits == old(waits) + 1 + length
        && data[..length] == Received(hw, old(waits) + 1, length)
        && data[length..] == old(data[length..])
        && regs == old(regs) + [MAddr(AddressByte(address, I2C_READ)), RELEASE_CLOCK]
                   + Acks(length) + [NACK_STOP]
    {
      if !IdleTest(entryStatus) {
        return ErrorNotReady;
      }
      var addressByte := (address << 1) + I2C_READ;
      assert addressByte == AddressByte(address, I2C_READ) by {
        AddressByteLayout(address, I2C_READ);
      }
      s := AddressPhase(addressByte);
      if s != Success {
        return s;
      }
      regs := regs + [RELEASE_CLOCK];
      ReceiveData(data, length);
      return Success;
    }

    /**
     * `i2c_read_byte`: address phase with error check, clock release, one
     * received byte into `data[0]` (its data phase is not checked), NACK+STOP.
     */
    method ReadByte(address: bv8, data: array<bv8>, entryStatus: bv8) returns (s: Status)
      requires 1 <= data.Length
      modifies this, data
      ensures !IdleTest(entryStatus) ==> s == ErrorNotReady && unchanged(this) && unchanged(data)
      ensures IdleTest(entryStatus) && ErrorCheckOf(literal, hw(old(waits)).mstatus) != Success ==>
        && s == ErrorCheckOf(literal, hw(old(waits)).mstatus)
        && waits == old(waits) + 1
        && regs == old(regs) + [MAddr(AddressByte(address, I2C_READ)), STOP]
        && unchanged(data)
      ensures IdleTest(entryStatus) && ErrorCheckOf(literal, hw(old(waits)).mstatus) == Success ==>
        && s == Success
        && waits == old(waits) + 2
        && data[0] == hw(old(waits) + 1).mdata
        && data[1..] == old(data[1..])
        && regs == old(regs) + [MAddr(AddressByte(address, I2C_READ)), RELEASE_CLOCK, NACK_STOP]
    {
      if !IdleTest(entryStatus) {
        return ErrorNotReady;
      }
      s := AddressPhase(AddressByte(address, I2C_READ));
      if s != Success {
        return s;
      }
      regs := regs + [RELEASE_CLOCK];
      WaitForStateChange();
      data[0] := mdata;
      regs := regs + [NACK_STOP];
      return Success;
    }
  }
}
