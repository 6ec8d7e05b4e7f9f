/**
 * The ESP32 RMT transmitter's pulse items, played out tick by tick.
 *
 * An item (rmt_item32_t) holds two halves, each a 15-bit duration in ticks
 * and a 1-bit output level.  A transmission of a list of items drives the
 * line at level0 for duration0 ticks and then at level1 for duration1 ticks,
 * item after item; a zero duration contributes no tick.  Between
 * transmissions the line rests at the channel's idle level.
 */
module Waveform {
  /** An output level: 0 is low, 1 is high. */
  type Bit = b: int | 0 <= b <= 1

  const Low: Bit := 0
  const High: Bit := 1

  /** A 15-bit tick count. */
  type Duration = d: int | 0 <= d < 0x8000

  datatype Item = Item(duration0: Duration, level0: Bit, duration1: Duration, level1: Bit)

  /** The all-zero item left behind by clearing the driver record. */
  const ZeroItem: Item := Item(0, Low, 0, Low)

  /** `n` ticks at level `b`. */
  function Repeat(b: Bit, n: nat): seq<Bit>
  {
    seq(n, _ => b)
  }

  /** The level of the line at every tick while `items` are transmitted. */
  function Expand(items: seq<Item>): seq<Bit>
  {
    if items == [] then []
    else Repeat(items[0].level0, items[0].duration0)
         + Repeat(items[0].level1, items[0].duration1)
         + Expand(items[1..])
  }

  /** The line from one idle tick before the transmission to one idle tick after it. */
  function Line(idle: Bit, items: seq<Item>): seq<Bit>
  {
    [idle] + Expand(items) + [idle]
  }

  /** The number of ticks `i` at which the line is at `from` and is at `to` at tick `i + 1`. */
  function Transitions(s: seq<Bit>, from: Bit, to: Bit): nat
  {
    if |s| < 2 then 0
    else (if s[0] == from && s[1] == to then 1 else 0) + Transitions(s[1..], from, to)
  }

  function Falls(s: seq<Bit>): nat
  {
    Transitions(s, High, Low)
  }

  function Rises(s: seq<Bit>): nat
  {
    Transitions(s, Low, High)
  }

  /** Transmitting two lists back to back plays the first, then the second. */
  lemma {:induction false} ExpandAppend(a: seq<Item>, b: seq<Item>)
    ensures Expand(a + b) == Expand(a) + Expand(b)
  {
    if a == [] {
      assert a + b == b;
    } else {
      assert (a + b)[1..] == a[1..] + b;
      ExpandAppend(a[1..], b);
    }
  }

  /** The transitions of a concatenation: those of each part plus the one at the seam. */
  lemma {:induction false} TransitionsAppend(a: seq<Bit>, b: seq<Bit>, from: Bit, to: Bit)
    requires a != [] && b != []
    ensures Transitions(a + b, from, to)
         == Transitions(a, from, to) + Transitions(b, from, to)
            + (if a[|a| - 1] == from && b[0] == to then 1 else 0)
    decreases |a|
  {
    if |a| == 1 {
      assert (a + b)[1..] == b;
    } else {
      assert (a + b)[1..] == a[1..] + b;
      TransitionsAppend(a[1..], b, from, to);
    }
  }

  /** A line held at one level has no transition. */
  lemma {:induction false} TransitionsRepeat(b: Bit, n: nat, from: Bit, to: Bit)
    requires from != to
    ensures Transitions(Repeat(b, n), from, to) == 0
  {
    if n >= 2 {
      assert Repeat(b, n)[1..] == Repeat(b, n - 1);
      TransitionsRepeat(b, n - 1, from, to);
    }
  }

  lemma RepeatAppend(b: Bit, n: nat, m: nat)
    ensures Repeat(b, n) + Repeat(b, m) == Repeat(b, n + m)
  {
  }
}
