/**
 * The USART baud-rate divisor of the AVR firmware (firmware/src/uart.h).
 *
 * BAUD and F_CPU default to 57600 and 16 MHz unless the build defines them;
 * BAUDRATE is F_CPU / (BAUD * 16) - 1 in `unsigned long`, which on AVR is
 * 32 bits wide, so the product and the subtraction wrap modulo 2^32.
 */
module Baud {
  import opened CTypes

  const DefaultBaud: uint32 := 57600
  const DefaultFCpu: uint32 := 16000000

  const Modulus32: int := 0x1_0000_0000

  /** `#ifndef NAME` / `#define NAME default`: a value given to the compiler wins. */
  function MacroValue(predefined: Option<uint32>, default: uint32): uint32
  {
    match predefined
    case Some(given) => given
    case None => default
  }

  /** Unsigned 32-bit multiplication. */
  function Mul32(a: uint32, b: uint32): uint32
  {
    (a * b) % Modulus32
  }

  /** Unsigned 32-bit subtraction. */
  function Sub32(a: uint32, b: uint32): uint32
  {
    (a - b) % Modulus32
  }

  /** BAUD * 16UL is not zero, so that the division in BAUDRATE is defined. */
  predicate DivisorDefined(baud: uint32)
  {
    Mul32(baud, 16) != 0
  }

  /**
   * `((F_CPU) / (BAUD * 16UL) - 1)`: one less than the quotient, unless the
   * quotient is 0 and the subtraction wraps to the largest 32-bit value.
   */
  function BaudRate(fCpu: uint32, baud: uint32): (r: uint32)
    requires DivisorDefined(baud)
    ensures fCpu >= Mul32(baud, 16) ==> r + 1 == fCpu / Mul32(baud, 16)
    ensures fCpu < Mul32(baud, 16) ==> r == Modulus32 - 1
  {
    var d := Mul32(baud, 16);
    QuotientAtMost(fCpu, d);
    var q: uint32 := fCpu / d;
    Sub32(q, 1)
  }

  /** `UBRR0H = (BAUDRATE >> 8)`: the 8-bit register keeps bits 8..15. */
  function HighByte(r: uint32): (h: uint8)
    ensures r < 0x1_0000 ==> 256 * h <= r < 256 * h + 256
  {
    (r / 256) % 256
  }

  /** `UBRR0L = BAUDRATE`: the 8-bit register keeps bits 0..7. */
  function LowByte(r: uint32): (l: uint8)
    ensures l <= r && (r - l) % 256 == 0
  {
    r % 256
  }

  /**
   * When 16 * BAUD does not wrap and does not exceed F_CPU, BAUDRATE + 1 is
   * the floor of F_CPU / (16 * BAUD).
   */
  lemma BaudRateBounds(fCpu: uint32, baud: uint32)
    requires 0 < 16 * baud < Modulus32 && 16 * baud <= fCpu
    ensures DivisorDefined(baud)
    ensures (BaudRate(fCpu, baud) + 1) * (16 * baud) <= fCpu
    ensures fCpu < (BaudRate(fCpu, baud) + 2) * (16 * baud)
  {
    var d := 16 * baud;
    assert Mul32(baud, 16) == d;
    var q := fCpu / d;
    FloorBounds(fCpu, d);
    assert q >= 1;
    assert BaudRate(fCpu, baud) == q - 1;
    assert (q - 1 + 1) * d == q * d;
    assert (q - 1 + 2) * d == (q + 1) * d;
  }

  lemma FloorBounds(x: nat, d: nat)
    requires d > 0
    ensures (x / d) * d <= x < (x / d + 1) * d
  {
    assert x == (x / d) * d + x % d;
    assert (x / d + 1) * d == (x / d) * d + d;
  }

  lemma QuotientAtMost(x: nat, d: nat)
    requires d > 0
    ensures 0 <= x / d <= x
    ensures x < d ==> x / d == 0
    ensures d <= x ==> 1 <= x / d
  {
    var q := x / d;
    FloorBelow(x, d);
    AtMostMultiple(q, d);
    if x < d {
      FloorZero(x, d);
    } else {
      FloorBounds(x, d);
    }
  }

  lemma FloorBelow(x: nat, d: nat)
    requires d > 0
    ensures (x / d) * d <= x
  {
    assert x == (x / d) * d + x % d;
  }

  lemma AtMostMultiple(q: nat, d: nat)
    requires d >= 1
    ensures q <= q * d
  {
    assert q * d == q + q * (d - 1);
  }

  lemma FloorZero(x: nat, d: nat)
    requires x < d
    ensures x / d == 0
  {
  }

  /** Below 16 * BAUD the quotient is 0 and the subtraction wraps to 2^32 - 1. */
  lemma BaudRateUnderflow(fCpu: uint32, baud: uint32)
    requires 0 < 16 * baud < Modulus32 && fCpu < 16 * baud
    ensures DivisorDefined(baud)
    ensures BaudRate(fCpu, baud) == Modulus32 - 1
  {
    var d := 16 * baud;
    assert Mul32(baud, 16) == d;
    FloorZero(fCpu, d);
    assert Sub32(0, 1) == Modulus32 - 1;
  }

  /** The two register bytes together hold every divisor that fits in 16 bits. */
  lemma ByteSplit(r: uint32)
    requires r < 0x1_0000
    ensures 256 * HighByte(r) + LowByte(r) == r
  {
  }

  /** With the default settings the divisor is 16000000 / 921600 - 1 = 16. */
  lemma DefaultBaudRate()
    ensures DivisorDefined(MacroValue(None, DefaultBaud))
    ensures BaudRate(MacroValue(None, DefaultFCpu), MacroValue(None, DefaultBaud)) == 16
    ensures HighByte(16) == 0 && LowByte(16) == 16
  {
  }
}
