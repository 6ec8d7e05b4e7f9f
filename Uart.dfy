/**
 * The minimal USART0 driver of the AVR firmware (firmware/src/uart.c).
 *
 * The baud-rate and control registers are fields.  Every byte written to
 * the data register UDR0 is appended to `sent`; the wait for UDRE0 (data
 * register empty) before each write is not modelled.
 */
module Uart {
  import opened CTypes
  import Baud
  import opened Itoa

  /** Bit positions in UCSR0B and UCSR0C of the ATmega USART0. */
  const RXEN0: nat := 4
  const TXEN0: nat := 3
  const UCSZ01: nat := 2
  const UCSZ00: nat := 1

  /** What initUART ORs into UCSR0B: receiver and transmitter enable. */
  const EnableMask: bv8 := (1 << RXEN0) | (1 << TXEN0)
  /** What initUART writes to UCSR0C: the two character-size bits. */
  const FrameFormat: bv8 := (1 << UCSZ01) | (1 << UCSZ00)

  /** The size of uartPrintArray's scratch buffer `tmp`. */
  const ScratchSize: nat := 7
  /** A scratch buffer that holds any byte's text in any base, with its NUL. */
  const WideScratchSize: nat := 9

  predicate BitAt(x: bv8, j: nat)
    requires j < 8
  {
    (x >> j) & 1 == 1
  }

  /** ORing the enable mask sets RXEN0 and TXEN0 and leaves every other bit as it was. */
  lemma EnableKeepsOtherBits(b: bv8, j: nat)
    requires j < 8
    ensures BitAt(b | EnableMask, j) <==> j == RXEN0 || j == TXEN0 || BitAt(b, j)
  {
  }

  /** The frame format has exactly the bits UCSZ01 and UCSZ00. */
  lemma FrameFormatBits(j: nat)
    requires j < 8
    ensures BitAt(FrameFormat, j) <==> j == UCSZ01 || j == UCSZ00
  {
  }

  /** The longest prefix of `s` that does not contain `c`. */
  function UpTo(s: seq<uint8>, c: uint8): (r: seq<uint8>)
    ensures |r| <= |s| && r == s[..|r|] && c !in r
    ensures |r| < |s| ==> s[|r|] == c
    ensures c in s ==> |r| < |s|
  {
    if s == [] then []
    else if s[0] == c then []
    else [s[0]] + UpTo(s[1..], c)
  }

  /** A run without `c`, followed by `c`, is cut exactly at that `c`. */
  lemma UpToStops(t: seq<uint8>, c: uint8, rest: seq<uint8>)
    requires c !in t
    ensures UpTo(t + [c] + rest, c) == t
  {
    var s := t + [c] + rest;
    assert forall j :: 0 <= j < |t| ==> s[j] == t[j] != c;
    assert s[|t|] == c;
    assert s[..|t|] == t;
  }

  /** A buffer that starts with a text free of NUL and then a NUL prints as that text. */
  lemma TerminatedText(buf: seq<uint8>, t: seq<uint8>)
    requires |t| < |buf| && buf[..|t| + 1] == t + [0] && 0 !in t
    ensures UpTo(buf, 0) == t && 0 in buf
  {
    assert buf == t + [0] + buf[|t| + 1..];
    UpToStops(t, 0, buf[|t| + 1..]);
  }

  /** The bytes uartPrintArray sends for `xs`: each element's text, the delimiter between two. */
  function Listing(xs: seq<uint8>, base: int, delimiter: uint8): seq<uint8>
    requires ValidBase(base)
  {
    if |xs| == 0 then []
    else if |xs| == 1 then Text(xs[0], base)
    else Text(xs[0], base) + [delimiter] + Listing(xs[1..], base, delimiter)
  }

  /** Printing one more element adds a delimiter and its text at the end. */
  lemma {:induction false} ListingSnoc(xs: seq<uint8>, x: uint8, base: int, delimiter: uint8)
    requires ValidBase(base) && |xs| >= 1
    ensures Listing(xs + [x], base, delimiter) == Listing(xs, base, delimiter) + [delimiter] + Text(x, base)
  {
    assert (xs + [x])[0] == xs[0];
    if |xs| > 1 {
      assert (xs + [x])[1..] == xs[1..] + [x];
      ListingSnoc(xs[1..], x, base, delimiter);
    } else {
      assert (xs + [x])[1..] == [x];
    }
  }

  /** The listing of the first `i + 1` elements extends that of the first `i`. */
  lemma ListingPrefix(xs: seq<uint8>, i: nat, base: int, delimiter: uint8)
    requires ValidBase(base) && i < |xs|
    ensures i == 0 ==> Listing(xs[..i + 1], base, delimiter) == Text(xs[0], base)
    ensures i > 0 ==>
      Listing(xs[..i + 1], base, delimiter) == Listing(xs[..i], base, delimiter) + [delimiter] + Text(xs[i], base)
  {
    if i == 0 {
      assert xs[..1] == [xs[0]];
    } else {
      assert xs[..i + 1] == xs[..i] + [xs[i]];
      ListingSnoc(xs[..i], xs[i], base, delimiter);
    }
  }

  /** What uartPrintArray has sent after `i` of the elements `xs`. */
  function Progress(xs: seq<uint8>, i: nat, base: int, delimiter: uint8): seq<uint8>
    requires ValidBase(base) && i <= |xs|
  {
    Listing(xs[..i], base, delimiter) + (if 0 < i < |xs| then [delimiter] else [])
  }

  /** One more iteration sends the element's text and, unless it is the last, a delimiter. */
  lemma ProgressStep(xs: seq<uint8>, i: nat, base: int, delimiter: uint8)
    requires ValidBase(base) && i < |xs|
    ensures Progress(xs, i + 1, base, delimiter)
         == Progress(xs, i, base, delimiter) + Text(xs[i], base)
            + (if i + 1 < |xs| then [delimiter] else [])
  {
    ListingPrefix(xs, i, base, delimiter);
    if i + 1 == |xs| {
      assert xs[..i + 1] == xs;
    }
  }

  lemma AppendAssoc(x: seq<uint8>, p: seq<uint8>, t: seq<uint8>, tail: seq<uint8>)
    ensures x + p + t + tail == x + (p + t + tail)
  {
  }

  /** The number of bytes `c` in `s`. */
  function Count(s: seq<uint8>, c: uint8): nat
  {
    if s == [] then 0 else (if s[0] == c then 1 else 0) + Count(s[1..], c)
  }

  lemma {:induction false} CountAppend(a: seq<uint8>, b: seq<uint8>, c: uint8)
    ensures Count(a + b, c) == Count(a, c) + Count(b, c)
  {
    if a != [] {
      assert (a + b)[1..] == a[1..] + b;
      CountAppend(a[1..], b, c);
    } else {
      assert a + b == b;
    }
  }

  lemma {:induction false} CountAbsent(s: seq<uint8>, c: uint8)
    requires c !in s
    ensures Count(s, c) == 0
  {
    if s != [] {
      CountAbsent(s[1..], c);
    }
  }

  /** With a delimiter that is no digit, `n` elements carry exactly `n - 1` delimiters. */
  lemma {:induction false} ListingDelimiters(xs: seq<uint8>, base: int, delimiter: uint8)
    requires ValidBase(base) && |xs| >= 1 && !IsDigitChar(delimiter)
    ensures Count(Listing(xs, base, delimiter), delimiter) == |xs| - 1
  {
    var t := Text(xs[0], base);
    assert delimiter !in t;
    CountAbsent(t, delimiter);
    if |xs| > 1 {
      ListingDelimiters(xs[1..], base, delimiter);
      CountAppend(t, [delimiter], delimiter);
      CountAppend(t + [delimiter], Listing(xs[1..], base, delimiter), delimiter);
    }
  }

  /** `s` cut at every `c`. */
  function Split(s: seq<uint8>, c: uint8): seq<seq<uint8>>
    decreases |s|
  {
    var field := UpTo(s, c);
    if |field| == |s| then [s] else [field] + Split(s[|field| + 1..], c)
  }

  /** The text of every element, in order. */
  function Texts(xs: seq<uint8>, base: int): (r: seq<seq<uint8>>)
    requires ValidBase(base)
    ensures |r| == |xs|
    ensures forall i :: 0 <= i < |xs| ==> r[i] == Text(xs[i], base)
  {
    if xs == [] then [] else [Text(xs[0], base)] + Texts(xs[1..], base)
  }

  /** Cutting the printed bytes at the delimiter gives back each element's text. */
  lemma {:induction false} SplitListing(xs: seq<uint8>, base: int, delimiter: uint8)
    requires ValidBase(base) && |xs| >= 1 && !IsDigitChar(delimiter)
    ensures Split(Listing(xs, base, delimiter), delimiter) == Texts(xs, base)
  {
    var t := Text(xs[0], base);
    assert delimiter !in t;
    if |xs| == 1 {
      SplitWhole(t, delimiter);
      assert Texts(xs, base) == [t] + Texts([], base);
    } else {
      SplitCons(t, delimiter, Listing(xs[1..], base, delimiter));
      SplitListing(xs[1..], base, delimiter);
    }
  }

  lemma SplitWhole(t: seq<uint8>, c: uint8)
    requires c !in t
    ensures Split(t, c) == [t]
  {
    assert UpTo(t, c) == t;
  }

  lemma SplitCons(t: seq<uint8>, c: uint8, rest: seq<uint8>)
    requires c !in t
    ensures Split(t + [c] + rest, c) == [t] + Split(rest, c)
  {
    var s := t + [c] + rest;
    UpToStops(t, c, rest);
    assert s[|t| + 1..] == rest;
  }

  /** The printed bytes determine the array: each field parses back to its element. */
  lemma ListingRoundTrip(xs: seq<uint8>, base: int, delimiter: uint8)
    requires ValidBase(base) && |xs| >= 1 && !IsDigitChar(delimiter)
    ensures |Split(Listing(xs, base, delimiter), delimiter)| == |xs|
    ensures forall i :: 0 <= i < |xs| ==>
      Parse(Split(Listing(xs, base, delimiter), delimiter)[i], base) == Some(xs[i] as nat)
  {
    SplitListing(xs, base, delimiter);
    forall i | 0 <= i < |xs|
      ensures Parse(Split(Listing(xs, base, delimiter), delimiter)[i], base) == Some(xs[i] as nat)
    {
      TextRoundTrip(xs[i], base);
    }
  }

  class Uart {
    /** F_CPU and BAUD as the build resolves them. */
    const fCpu: uint32
    const baud: uint32

    var ubrr0h: uint8
    var ubrr0l: uint8
    var ucsr0b: bv8
    var ucsr0c: bv8

    /** Every byte written to UDR0, in order. */
    var sent: seq<uint8>

    /** A build of the firmware, with F_CPU and BAUD optionally given to the compiler. */
    constructor (predefinedFCpu: Option<uint32>, predefinedBaud: Option<uint32>)
      requires Baud.DivisorDefined(Baud.MacroValue(predefinedBaud, Baud.DefaultBaud))
      ensures fCpu == Baud.MacroValue(predefinedFCpu, Baud.DefaultFCpu)
      ensures baud == Baud.MacroValue(predefinedBaud, Baud.DefaultBaud)
      ensures Baud.DivisorDefined(baud)
      ensures ubrr0h == 0 && ubrr0l == 0 && ucsr0b == 0 && ucsr0c == 0 && sent == []
    {
      fCpu := Baud.MacroValue(predefinedFCpu, Baud.DefaultFCpu);
      baud := Baud.MacroValue(predefinedBaud, Baud.DefaultBaud);
      ubrr0h, ubrr0l, ucsr0b, ucsr0c := 0, 0, 0, 0;
      sent := [];
    }

    /** initUART: divisor into UBRR0H/UBRR0L, enable receiver and transmitter, set the frame size. */
    method Init()
      requires Baud.DivisorDefined(baud)
      modifies this`ubrr0h, this`ubrr0l, this`ucsr0b, this`ucsr0c
      ensures ubrr0h == Baud.HighByte(Baud.BaudRate(fCpu, baud))
      ensures ubrr0l == Baud.LowByte(Baud.BaudRate(fCpu, baud))
      ensures Baud.BaudRate(fCpu, baud) < 0x1_0000 ==> 256 * ubrr0h + ubrr0l == Baud.BaudRate(fCpu, baud)
      ensures ucsr0b == old(ucsr0b) | EnableMask
      ensures ucsr0c == FrameFormat
    {
      var divisor := Baud.BaudRate(fCpu, baud);
      ubrr0h := Baud.HighByte(divisor);
      ubrr0l := Baud.LowByte(divisor);
      ucsr0b := ucsr0b | (1 << RXEN0);
      ucsr0b := ucsr0b | (1 << TXEN0);
      ucsr0c := (1 << UCSZ01) | (1 << UCSZ00);
      if divisor < 0x1_0000 {
        Baud.ByteSplit(divisor);
      }
    }

    /** uartPutc: one byte out. */
    method Putc(c: uint8)
      modifies this`sent
      ensures sent == old(sent) + [c]
    {
      sent := sent + [c];
    }

    /** uartPuts: the bytes of a NUL-terminated string, up to and without the NUL. */
    method Puts(s: seq<uint8>)
      requires 0 in s
      modifies this`sent
      ensures sent == old(sent) + UpTo(s, 0)
    {
      var p := 0;
      while s[p] != 0
        invariant 0 <= p <= |UpTo(s, 0)|
        invariant sent == old(sent) + s[..p]
        decreases |s| - p
      {
        Putc(s[p]);
        p := p + 1;
      }
    }

    /** The body of uartPrintArray, with its scratch buffer passed in. */
    method PrintWith(a: array<uint8>, size: int, base: int, delimiter: uint8, tmp: array<uint8>)
      requires size <= a.Length && ValidBase(base) && tmp != a
      requires forall i :: 0 <= i < size ==> |Text(a[i], base)| < tmp.Length
      modifies this`sent, tmp
      ensures sent == old(sent) + Listing(a[..if size > 0 then size else 0], base, delimiter)
    {
      ghost var n: nat := if size > 0 then size else 0;
      ghost var xs := a[..n];
      var i := 0;
      while i < size
        invariant 0 <= i <= n
        invariant sent == old(sent) + Progress(xs, i, base, delimiter)
        decreases size - i
      {
        ghost var before := sent;
        ghost var t := Text(a[i], base);
        var text := Convert(a[i], tmp, base);
        TerminatedText(text[..], t);
        Puts(text[..]);
        if i < size - 1 {
          Putc(delimiter);
        }
        ghost var tail: seq<uint8> := if i + 1 < size then [delimiter] else [];
        assert xs[i] == a[i];
        ProgressStep(xs, i, base, delimiter);
        AppendAssoc(old(sent), Progress(xs, i, base, delimiter), t, tail);
        i := i + 1;
      }
      assert xs[..n] == xs;
    }

    /**
     * uartPrintArray as written, with its 7-byte `tmp`: in bounds only when
     * every printed text has at most 6 digits.
     */
    method PrintArray(a: array<uint8>, size: int, base: int, delimiter: uint8)
      requires size <= a.Length && ValidBase(base)
      requires forall i :: 0 <= i < size ==> |Text(a[i], base)| < ScratchSize
      modifies this`sent
      ensures sent == old(sent) + Listing(a[..if size > 0 then size else 0], base, delimiter)
      ensures size <= 0 ==> sent == old(sent)
    {
      var tmp := new uint8[ScratchSize];
      PrintWith(a, size, base, delimiter, tmp);
    }

    /** uartPrintArray with a 9-byte `tmp`, which holds any byte's text in any base. */
    method PrintArrayWide(a: array<uint8>, size: int, base: int, delimiter: uint8)
      requires size <= a.Length && ValidBase(base)
      modifies this`sent
      ensures sent == old(sent) + Listing(a[..if size > 0 then size else 0], base, delimiter)
      ensures size <= 0 ==> sent == old(sent)
    {
      var tmp := new uint8[WideScratchSize];
      forall i | 0 <= i < size
        ensures |Text(a[i], base)| < tmp.Length
      {
        ByteDigits(a[i], base);
      }
      PrintWith(a, size, base, delimiter, tmp);
    }
  }
}
