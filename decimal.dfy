/**
 * `int_to_string`, the decimal formatter shared by the ADC and temperature
 * demos: an unsigned 16-bit number is written into a caller's char buffer,
 * least significant digit first, NUL-terminated, and the digits are then
 * reversed in place.
 */
module Decimal {

  /** The C type `uint16_t`. */
  type Uint16 = n: nat | n < 0x1_0000

  /** The buffer size the ADC demos pass (`SIZE`). */
  const SIZE: nat := 7

  predicate IsDigit(c: char) {
    '0' <= c <= '9'
  }

  predicate AllDigits(s: seq<char>) {
    forall i :: 0 <= i < |s| ==> IsDigit(s[i])
  }

  function DigitValue(c: char): nat
    requires IsDigit(c)
  {
    c as int - '0' as int
  }

  /** `'0' + d` for a single decimal digit `d`. */
  function DigitChar(d: nat): (c: char)
    requires d < 10
    ensures IsDigit(c) && DigitValue(c) == d
  {
    ('0' as int + d) as char
  }

  /**
   * The reference rendering: the decimal representation of `n`, most
   * significant digit first, without leading zeros ("0" for zero).
   */
  function DecimalOf(n: nat): (s: seq<char>)
    ensures 1 <= |s| && AllDigits(s)
    ensures s[0] == '0' <==> n == 0
  {
    if n < 10 then [DigitChar(n)] else DecimalOf(n / 10) + [DigitChar(n % 10)]
  }

  /** Reads a digit string back as a number, most significant digit first. */
  function Value(s: seq<char>): nat
    requires AllDigits(s)
  {
    if s == [] then 0 else Value(s[..|s| - 1]) * 10 + DigitValue(s[|s| - 1])
  }

  function Pow10(k: nat): (p: nat)
    ensures p >= 1
  {
    if k == 0 then 1 else 10 * Pow10(k - 1)
  }

  /** Parsing the rendering gives the number back. */
  lemma {:induction false} ValueOfDecimal(n: nat)
    ensures Value(DecimalOf(n)) == n
  {
    if n >= 10 {
      var s := DecimalOf(n);
      assert s[..|s| - 1] == DecimalOf(n / 10);
      ValueOfDecimal(n / 10);
    }
  }

  /** A number below 10^k has at most k digits. */
  lemma {:induction false} DecimalLengthBound(n: nat, k: nat)
    requires 1 <= k && n < Pow10(k)
    ensures |DecimalOf(n)| <= k
  {
    if n >= 10 {
      assert k >= 2;
      DecimalLengthBound(n / 10, k - 1);
    }
  }

  /**
   * A `uint16_t` has at most five digits, so digits and terminator take at
   * most six chars and fit the SIZE-7 buffers of the ADC demos (and the
   * 16-char buffers of the temperature demo).
   */
  lemma FitsBuffer(n: Uint16)
    ensures |DecimalOf(n)| <= 5
    ensures |DecimalOf(n)| < SIZE - 1
  {
    assert Pow10(5) == 100000;
    DecimalLengthBound(n, 5);
  }

  /**
   * The temperature demo's copy of `int_to_string` adds a branch that emits
   * '-' when `number < 0`; for an unsigned 16-bit argument it can never be
   * taken, which is why one method models all three copies.
   */
  lemma SignBranchNeverTaken(number: Uint16)
    ensures !(number < 0)
    ensures '-' !in DecimalOf(number)
  {
  }

  /** The digits of a positive number, least significant first. */
  function LeastFirst(n: nat): seq<char>
  {
    if n == 0 then [] else [DigitChar(n % 10)] + LeastFirst(n / 10)
  }

  /** What the digit loop of `int_to_string` emits, in emission order. */
  function Emitted(n: nat): seq<char>
  {
    if n == 0 then ['0'] else LeastFirst(n)
  }

  function Reversed<T>(s: seq<T>): (r: seq<T>)
    ensures |r| == |s|
  {
    if s == [] then [] else Reversed(s[1..]) + [s[0]]
  }

  lemma {:induction false} ReversedAt<T>(s: seq<T>, k: nat)
    requires k < |s|
    ensures Reversed(s)[k] == s[|s| - 1 - k]
  {
    if k < |s| - 1 {
      ReversedAt(s[1..], k);
    }
  }

  /** Reversing a segment only permutes it. */
  lemma {:induction false} ReversedIsPermutation<T>(s: seq<T>)
    ensures multiset(Reversed(s)) == multiset(s)
  {
    if s != [] {
      ReversedIsPermutation(s[1..]);
      assert s == [s[0]] + s[1..];
    }
  }

  /** Reversing what the digit loop emits gives the reference rendering. */
  lemma {:induction false} ReversedEmitted(n: nat)
    ensures Reversed(Emitted(n)) == DecimalOf(n)
  {
    if n >= 10 {
      ReversedEmitted(n / 10);
      assert Emitted(n)[1..] == Emitted(n / 10);
    } else if n > 0 {
      assert n / 10 == 0 && n % 10 == n;
      assert LeastFirst(n) == [DigitChar(n % 10)] + LeastFirst(0);
    }
  }

  /**
   * `int_to_string(number, zeichenkette)`: the digits of `number` followed by
   * a NUL are left in the buffer, which is returned; nothing past the NUL is
   * touched.
   */
  method IntToString(number: Uint16, buffer: array<char>) returns (r: array<char>)
    requires |DecimalOf(number)| < buffer.Length
    modifies buffer
    ensures r == buffer
    ensures buffer[..|DecimalOf(number)|] == DecimalOf(number)
    ensures buffer[|DecimalOf(number)|] == '\0'
    ensures buffer[|DecimalOf(number)| + 1..] == old(buffer[|DecimalOf(number)| + 1..])
  {
    ReversedEmitted(number);
    var position := EmitDigits(number, buffer);
    buffer[position] := '\0';
    assert buffer[position + 1..] == old(buffer[position + 1..]);
    ReverseDigits(buffer, position);
    assert buffer[position + 1..] == buffer[position..][1..];
    r := buffer;
  }

  /**
   * The first half of `int_to_string`: a '0' for zero, otherwise the digits
   * of `number`, least significant first, from index 0 on; returns the
   * index just past them, where the NUL goes.
   */
  method EmitDigits(number: Uint16, buffer: array<char>) returns (position: nat)
    requires |Emitted(number)| < buffer.Length
    modifies buffer
    ensures position == |Emitted(number)|
    ensures buffer[..position] == Emitted(number)
    ensures buffer[position..] == old(buffer[position..])
  {
    ghost var digits := Emitted(number);
    var n: nat := number;
    position := 0;
    if n == 0 {
      buffer[position] := '0';
      position := position + 1;
    }
    while n > 0
      invariant position <= |digits| < buffer.Length
      invariant buffer[..position] + LeastFirst(n) == digits
      invariant buffer[|digits|..] == old(buffer[|digits|..])
    {
      assert LeastFirst(n) == [DigitChar(n % 10)] + LeastFirst(n / 10);
      buffer[position] := DigitChar(n % 10);
      assert buffer[..position + 1] == buffer[..position] + [DigitChar(n % 10)];
      position := position + 1;
      n := n / 10;
    }
  }

  /**
   * The swap loop at the end of `int_to_string`: reverses
   * `buffer[0..position)` in place and leaves the rest alone.
   */
  method ReverseDigits(buffer: array<char>, position: nat)
    requires position <= buffer.Length
    modifies buffer
    ensures buffer[..position] == Reversed(old(buffer[..position]))
    ensures buffer[position..] == old(buffer[position..])
  {
    ghost var digits := buffer[..position];
    var i := 0;
    while i < position / 2
      invariant 0 <= i <= position / 2
      invariant forall k :: 0 <= k < i ==>
        buffer[k] == digits[position - 1 - k] && buffer[position - 1 - k] == digits[k]
      invariant forall k :: i <= k < position - i ==> buffer[k] == digits[k]
      invariant buffer[position..] == old(buffer[position..])
    {
      var contener := buffer[i];
      buffer[i] := buffer[position - 1 - i];
      buffer[position - 1 - i] := contener;
      i := i + 1;
    }
    forall k | 0 <= k < position
      ensures buffer[k] == Reversed(digits)[k]
    {
      ReversedAt(digits, k);
    }
    assert buffer[..position] == Reversed(digits);
  }
}
