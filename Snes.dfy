/**
 * The SNES controller-bus driver of the ESP32 firmware (Firmware/src/SNES.c).
 *
 * The driver owns two RMT transmit channels: channel 0 drives the latch line
 * and idles low, channel 1 drives the clock line and idles high.  Each holds
 * a table of items filled once by Init.  A background task repeatedly sends
 * the latch pulse and then the first 16 items of the clock table, until the
 * run flag is cleared.  Calls into the RMT, GPIO and FreeRTOS drivers are
 * recorded as Actions on `bus` rather than performed.
 */
module Snes {
  import opened CTypes
  import opened Waveform

  /** All buttons released: the controller pulls a line low for each pressed button. */
  const NoButtons: uint16 := 0xffff

  const LatchChannel: nat := 0
  const ClockChannel: nat := 1

  /** Numbers of items passed to rmt_write_items. */
  const LatchCount: nat := 1
  const ClockCount: nat := 16

  /** vTaskDelay's argument between two polls, in milliseconds before division by the tick period. */
  const PollPauseMs: nat := 16

  datatype RmtMode = Tx | Rx

  /** The fields of rmt_config_t that the driver sets (the GPIO number is not modelled). */
  datatype ChannelConfig = ChannelConfig(
    mode: RmtMode, channel: nat, clkDiv: nat, memBlockNum: nat,
    loopEn: bool, idleLevel: Bit, idleOutputEn: bool)

  /** A configuration as left by clearing the record with zero bytes. */
  const ZeroConfig: ChannelConfig := ChannelConfig(Tx, 0, 0, 0, false, Low, false)
  const LatchConfig: ChannelConfig := ChannelConfig(Tx, LatchChannel, 80, 1, false, Low, true)
  const ClockConfig: ChannelConfig := ChannelConfig(Tx, ClockChannel, 80, 1, false, High, true)

  /** High for 12 ticks, then a zero-length low half. */
  const LatchItem: Item := Item(12, High, 0, Low)
  /** Item 0 of the clock table: high in both halves, 6 + 5 ticks. */
  const ClockLead: Item := Item(6, High, 5, High)
  /** Items 1..16 of the clock table: 6 ticks low, then 6 ticks high. */
  const ClockPulse: Item := Item(6, Low, 6, High)

  const LatchTable: seq<Item> := [LatchItem]
  /** The 17-item clock table InitSNES fills. */
  function ClockTable(): seq<Item>
  {
    [ClockLead] + seq(16, _ => ClockPulse)
  }

  /** A 17-item list with the lead item first and pulses after it is the clock table. */
  lemma IsClockTable(s: seq<Item>)
    requires |s| == 17 && s[0] == ClockLead
    requires forall j :: 1 <= j < 17 ==> s[j] == ClockPulse
    ensures s == ClockTable()
  {
    ClockTableAt();
  }

  /** Item 0 of the clock table is the lead item, items 1..16 are pulses. */
  lemma ClockTableAt()
    ensures |ClockTable()| == 17 && ClockTable()[0] == ClockLead
    ensures forall j :: 1 <= j < 17 ==> ClockTable()[j] == ClockPulse
  {
  }

  /** A call into the platform drivers, as the driver makes it. */
  datatype Action =
    | ConfigureDataInput                                       // gpio_config of the data line
    | Install(config: ChannelConfig)                           // rmt_config + rmt_driver_install
    | SpawnReader                                              // xTaskCreate of the poll loop
    | Write(channel: nat, items: seq<Item>, waitTxDone: bool)  // rmt_write_items, count == |items|
    | Pause(ticks: nat)                                        // vTaskDelay
    | DeleteTask                                               // vTaskDelete(NULL)

  /**
   * Where in an iteration of the poll loop another task calls DeInit:
   * before that iteration's test of the run flag, or inside its body.
   */
  datatype Phase = BeforeTest | BeforeLatch | BeforeClock | BeforePause
  datatype StopRequest = StopRequest(iteration: nat, phase: Phase)

  /**
   * The poll cycles run before the task exits: a stop before the test of
   * iteration k leaves k cycles; a stop inside its body lets it complete.
   */
  function StopCycles(stop: StopRequest): nat
  {
    if stop.phase == BeforeTest then stop.iteration else stop.iteration + 1
  }

  /** One iteration of the poll loop: latch (no wait), clock (wait), pause. */
  function PollCycle(pauseTicks: nat): seq<Action>
  {
    [Write(LatchChannel, LatchTable, false),
     Write(ClockChannel, ClockTable()[..ClockCount], true),
     Pause(pauseTicks)]
  }

  /** `n` iterations of the poll loop. */
  function Polls(n: nat, pauseTicks: nat): seq<Action>
  {
    if n == 0 then [] else Polls(n - 1, pauseTicks) + PollCycle(pauseTicks)
  }

  class Driver {
    /** FreeRTOS's portTICK_PERIOD_MS, a build setting. */
    const tickPeriodMs: nat

    var isRunning: bool
    var inputData: uint16
    var ioPortBit6: bool
    var ioPortBit7: bool
    var latch: ChannelConfig
    var latchItems: array<Item>
    var clock: ChannelConfig
    var clockItems: array<Item>

    /** Every driver call made so far, in order. */
    var bus: seq<Action>

    /** The record's shape: the two item tables of the C struct. */
    ghost predicate Allocated()
      reads this`latchItems, this`clockItems
    {
      tickPeriodMs > 0 && latchItems.Length == 1 && clockItems.Length == 17
      && latchItems != clockItems
    }

    /** The state Init establishes and every later operation keeps. */
    ghost predicate Valid()
      reads this`latchItems, this`clockItems, this`latch, this`clock, this`inputData
      reads latchItems, clockItems
    {
      Allocated()
      && latch == LatchConfig && clock == ClockConfig
      && latchItems[..] == LatchTable && clockItems[..] == ClockTable()
      && inputData == NoButtons
    }

    /** The statically allocated record before Init: all zero. */
    constructor (tickPeriodMs: nat)
      requires tickPeriodMs > 0
      ensures Allocated() && fresh(latchItems) && fresh(clockItems)
      ensures this.tickPeriodMs == tickPeriodMs
      ensures !isRunning && inputData == 0 && !ioPortBit6 && !ioPortBit7
      ensures latch == ZeroConfig && clock == ZeroConfig
      ensures latchItems[..] == [ZeroItem] && clockItems[..] == seq(17, _ => ZeroItem)
      ensures bus == []
    {
      this.tickPeriodMs := tickPeriodMs;
      isRunning, inputData, ioPortBit6, ioPortBit7 := false, 0, false, false;
      latch, clock := ZeroConfig, ZeroConfig;
      latchItems := new Item[1](_ => ZeroItem);
      clockItems := new Item[17](_ => ZeroItem);
      bus := [];
    }

    /** InitSNES: clear the record, set the input to "no buttons", fill both tables. */
    method Init()
      requires Allocated()
      modifies this, latchItems, clockItems
      ensures Valid()
      ensures latchItems == old(latchItems) && clockItems == old(clockItems)
      ensures !isRunning && inputData == NoButtons && !ioPortBit6 && !ioPortBit7
      ensures bus == old(bus) + [ConfigureDataInput, Install(LatchConfig), Install(ClockConfig), SpawnReader]
    {
      // memset of the whole record
      isRunning, inputData, ioPortBit6, ioPortBit7 := false, 0, false, false;
      latch, clock := ZeroConfig, ZeroConfig;
      latchItems[0] := ZeroItem;
      forall k | 0 <= k < clockItems.Length {
        clockItems[k] := ZeroItem;
      }
      inputData := NoButtons;
      bus := bus + [ConfigureDataInput];

      latch := LatchConfig;
      bus := bus + [Install(latch)];
      latchItems[0] := Item(12, High, 0, Low);

      clock := ClockConfig;
      bus := bus + [Install(clock)];
      FillClockItems();
      assert latchItems[..] == [latchItems[0]];
      bus := bus + [SpawnReader];
    }

    /** The clock table of Init: the lead item, then sixteen pulse items. */
    method FillClockItems()
      requires Allocated()
      modifies clockItems
      ensures clockItems[..] == ClockTable()
    {
      clockItems[0] := Item(6, High, 5, High);
      for k := 1 to 17
        invariant clockItems[0] == ClockLead
        invariant forall j :: 1 <= j < k ==> clockItems[j] == ClockPulse
      {
        clockItems[k] := Item(6, Low, 6, High);
      }
      IsClockTable(clockItems[..]);
    }

    /** DeInitSNES: clear the run flag and nothing else. */
    method DeInit()
      modifies this`isRunning
      ensures !isRunning
      ensures old(Valid()) ==> Valid()
    {
      isRunning := false;
    }

    /**
     * GetSNESInputData: the stored input word.  It is 0 in the zeroed record
     * before Init and stays "no buttons" once Init has run.
     */
    function GetInputData(): (r: uint16)
      reads this, latchItems, clockItems
      ensures r == inputData
      ensures Valid() ==> r == NoButtons
    {
      inputData
    }

    /** _SendLatch: the one latch item, without waiting for the end of transmission. */
    method SendLatch()
      requires Valid()
      modifies this`bus
      ensures bus == old(bus) + [Write(LatchChannel, LatchTable, false)]
    {
      assert latchItems[..LatchCount] == latchItems[..];
      bus := bus + [Write(latch.channel, latchItems[..LatchCount], false)];
    }

    /** _SendClock: the first 16 of the 17 clock items, waiting for the end of transmission. */
    method SendClock()
      requires Valid()
      modifies this`bus
      ensures bus == old(bus) + [Write(ClockChannel, ClockTable()[..ClockCount], true)]
    {
      bus := bus + [Write(clock.channel, clockItems[..ClockCount], true)];
    }

    /** vTaskDelay(ms / portTICK_PERIOD_MS), the division truncating. */
    method TaskDelay(ms: nat)
      requires tickPeriodMs > 0
      modifies this`bus
      ensures bus == old(bus) + [Pause(ms / tickPeriodMs)]
    {
      bus := bus + [Pause(ms / tickPeriodMs)];
    }

    /** The other task's DeInit call, when `stop` names this point of iteration `n`. */
    method StopAt(stop: StopRequest, n: nat, phase: Phase)
      modifies this`isRunning
      ensures isRunning == (old(isRunning) && !(n == stop.iteration && stop.phase == phase))
      ensures old(Valid()) ==> Valid()
    {
      if n == stop.iteration && stop.phase == phase {
        DeInit();
      }
    }

    /** One pass through the body of the poll loop, with DeInit landing where `stop` names. */
    method Poll(stop: StopRequest, n: nat)
      requires Valid()
      modifies this`isRunning, this`bus
      ensures Valid()
      ensures isRunning == (old(isRunning) && !(n == stop.iteration && stop.phase != BeforeTest))
      ensures bus == old(bus) + PollCycle(PollPauseMs / tickPeriodMs)
    {
      StopAt(stop, n, BeforeLatch);
      SendLatch();
      StopAt(stop, n, BeforeClock);
      SendClock();
      StopAt(stop, n, BeforePause);
      TaskDelay(PollPauseMs);
    }

    /**
     * _SNESReadInputThread, up to its exit.  Another task calls DeInit at the
     * point `stop` names, after the task has set the run flag; the loop tests
     * the flag only at the top of an iteration, so an iteration in progress
     * is completed.
     */
    method ReadInputThread(stop: StopRequest)
      requires Valid()
      modifies this`isRunning, this`bus
      ensures Valid() && !isRunning
      ensures bus == old(bus) + Polls(StopCycles(stop), PollPauseMs / tickPeriodMs) + [DeleteTask]
    {
      ghost var cycles := StopCycles(stop);
      isRunning := true;
      var n: nat := 0;
      StopAt(stop, n, BeforeTest);
      while isRunning
        invariant Valid()
        invariant isRunning ==> n < cycles
        invariant !isRunning ==> n == cycles
        invariant bus == old(bus) + Polls(n, PollPauseMs / tickPeriodMs)
        decreases cycles - n
      {
        Poll(stop, n);
        n := n + 1;
        StopAt(stop, n, BeforeTest);
      }
      bus := bus + [DeleteTask];
    }
  }

  /** Every iteration sends the latch item, then the clock burst, then pauses. */
  lemma {:induction false} PollOrder(n: nat, pauseTicks: nat, k: nat)
    requires k < n
    ensures |Polls(n, pauseTicks)| == 3 * n
    ensures Polls(n, pauseTicks)[3 * k] == Write(LatchChannel, LatchTable, false)
    ensures Polls(n, pauseTicks)[3 * k + 1] == Write(ClockChannel, ClockTable()[..ClockCount], true)
    ensures Polls(n, pauseTicks)[3 * k + 2] == Pause(pauseTicks)
  {
    if k < n - 1 {
      PollOrder(n - 1, pauseTicks, k);
    } else if n > 1 {
      PollOrder(n - 1, pauseTicks, 0);
    }
  }

  /** The latch line: exactly one positive pulse, 12 ticks wide, between low idle levels. */
  lemma LatchPulse()
    ensures Expand(LatchTable) == Repeat(High, 12)
    ensures Line(LatchConfig.idleLevel, LatchTable) == [Low] + Repeat(High, 12) + [Low]
    ensures Rises(Line(LatchConfig.idleLevel, LatchTable)) == 1
    ensures Falls(Line(LatchConfig.idleLevel, LatchTable)) == 1
  {
    assert Expand(LatchTable) == Repeat(High, 12) + Repeat(Low, 0) + Expand([]);
    var up := [Low] + Repeat(High, 12);
    TransitionsAppend([Low], Repeat(High, 12), Low, High);
    TransitionsAppend([Low], Repeat(High, 12), High, Low);
    TransitionsRepeat(High, 12, Low, High);
    TransitionsRepeat(High, 12, High, Low);
    TransitionsAppend(up, [Low], Low, High);
    TransitionsAppend(up, [Low], High, Low);
  }

  /** Clock items 1..16: period 12 ticks, 6 of them high (50% duty), low half first. */
  lemma ClockPulseShape(k: nat)
    requires 1 <= k < |ClockTable()|
    ensures ClockTable()[k].duration0 + ClockTable()[k].duration1 == 12
    ensures ClockTable()[k].duration1 == 6 && ClockTable()[k].level0 == Low && ClockTable()[k].level1 == High
    ensures Expand([ClockTable()[k]]) == Repeat(Low, 6) + Repeat(High, 6)
  {
    assert Expand([ClockTable()[k]]) == Repeat(Low, 6) + Repeat(High, 6) + Expand([]);
  }

  /** One clock pulse, tick by tick. */
  function Pulse(): seq<Bit>
  {
    Repeat(Low, 6) + Repeat(High, 6)
  }

  /** `n` clock pulses back to back. */
  function Train(n: nat): seq<Bit>
  {
    if n == 0 then [] else Pulse() + Train(n - 1)
  }

  /** `n` pulse items play out as `n` pulses. */
  lemma {:induction false} ExpandPulses(n: nat)
    ensures Expand(seq(n, _ => ClockPulse)) == Train(n)
  {
    if n > 0 {
      var items := seq(n, _ => ClockPulse);
      assert items[0] == ClockPulse;
      assert items[1..] == seq(n - 1, _ => ClockPulse);
      ExpandPulses(n - 1);
    }
  }

  /** A train of pulses is low in the first half and high in the second half of every 12 ticks. */
  lemma {:induction false} TrainAt(n: nat, i: nat)
    ensures |Train(n)| == 12 * n
    ensures i < 12 * n ==> Train(n)[i] == if i % 12 < 6 then Low else High
  {
    if n > 0 {
      var rest := Train(n - 1);
      assert Train(n) == Pulse() + rest;
      if i >= 12 {
        TrainAt(n - 1, i - 12);
        assert (i - 12) % 12 == i % 12;
        if i < 12 * n {
          assert Train(n)[i] == rest[i - 12];
        }
      } else {
        TrainAt(n - 1, 0);
        assert Train(n)[i] == Pulse()[i];
      }
    }
  }

  /** A train of `n` pulses starts low and ends high. */
  lemma TrainEnds(n: nat)
    requires n >= 1
    ensures |Train(n)| == 12 * n
    ensures Train(n)[0] == Low && Train(n)[12 * n - 1] == High
  {
    TrainAt(n, 0);
    TrainAt(n, 12 * n - 1);
    assert (12 * n - 1) % 12 == 11;
  }

  /** A train of `n` pulses holds `n` rises and `n - 1` falls. */
  lemma {:induction false} TrainEdges(n: nat)
    requires n >= 1
    ensures Rises(Train(n)) == n && Falls(Train(n)) == n - 1
  {
    PulseEdges();
    if n > 1 {
      var rest := Train(n - 1);
      assert Train(n) == Pulse() + rest;
      TrainEdges(n - 1);
      TrainEnds(n - 1);
      assert Pulse()[11] == High;
      TransitionsAppend(Pulse(), rest, Low, High);
      TransitionsAppend(Pulse(), rest, High, Low);
    } else {
      assert Train(1) == Pulse();
    }
  }

  lemma PulseEdges()
    ensures Rises(Pulse()) == 1 && Falls(Pulse()) == 0
  {
    TransitionsRepeat(Low, 6, Low, High);
    TransitionsRepeat(Low, 6, High, Low);
    TransitionsRepeat(High, 6, Low, High);
    TransitionsRepeat(High, 6, High, Low);
    TransitionsAppend(Repeat(Low, 6), Repeat(High, 6), Low, High);
    TransitionsAppend(Repeat(Low, 6), Repeat(High, 6), High, Low);
  }

  /** A train preceded by a high stretch and followed by a high tick: one fall and one rise per pulse. */
  lemma HighFramedTrainEdges(lead: nat, n: nat)
    requires lead >= 1 && n >= 1
    ensures Falls(Repeat(High, lead) + Train(n) + [High]) == n
    ensures Rises(Repeat(High, lead) + Train(n) + [High]) == n
  {
    var head := Repeat(High, lead);
    var body := head + Train(n);
    TrainEnds(n);
    TrainEdges(n);
    TransitionsRepeat(High, lead, High, Low);
    TransitionsRepeat(High, lead, Low, High);
    TransitionsAppend(head, Train(n), High, Low);
    TransitionsAppend(head, Train(n), Low, High);
    TransitionsAppend(body, [High], High, Low);
    TransitionsAppend(body, [High], Low, High);
  }

  /** The 16 transmitted clock items: item 0 (11 ticks high) then 15 pulses. */
  lemma ClockBurstTicks()
    ensures Expand(ClockTable()[..ClockCount]) == Repeat(High, 11) + Train(ClockCount - 1)
  {
    var rest := seq(15, _ => ClockPulse);
    assert ClockTable()[..ClockCount] == [ClockLead] + rest;
    ExpandAppend([ClockLead], rest);
    assert Expand([ClockLead]) == Repeat(High, 6) + Repeat(High, 5) + Expand([]);
    RepeatAppend(High, 6, 5);
    ExpandPulses(15);
  }

  /**
   * The clock burst lasts 11 + 15 * 12 = 191 ticks: high for the first 11,
   * then low for 6 and high for 6 in each 12-tick period, ending high.
   */
  lemma ClockBurstShape()
    ensures |Expand(ClockTable()[..ClockCount])| == 191
    ensures forall i :: 0 <= i < 191 ==>
      Expand(ClockTable()[..ClockCount])[i]
        == if i < 11 then High else if (i - 11) % 12 < 6 then Low else High
    ensures Expand(ClockTable()[..ClockCount])[190] == ClockConfig.idleLevel
  {
    ClockBurstTicks();
    TrainAt(15, 0);
    var w := Expand(ClockTable()[..ClockCount]);
    forall i | 0 <= i < 191
      ensures w[i] == if i < 11 then High else if (i - 11) % 12 < 6 then Low else High
    {
      TrainAt(15, if i >= 11 then i - 11 else 0);
    }
  }

  /**
   * On the clock line (idle high) nothing changes before tick 12, where the
   * line falls at the start of item 1: the first transition is high to low.
   */
  lemma ClockFirstEdge()
    ensures forall i :: 0 <= i <= 11 ==> Line(ClockConfig.idleLevel, ClockTable()[..ClockCount])[i] == High
    ensures Line(ClockConfig.idleLevel, ClockTable()[..ClockCount])[12] == Low
  {
    ClockBurstShape();
  }

  /** The clock line has exactly 15 falling and 15 rising edges per burst. */
  lemma ClockBurstEdges()
    ensures Falls(Line(ClockConfig.idleLevel, ClockTable()[..ClockCount])) == 15
    ensures Rises(Line(ClockConfig.idleLevel, ClockTable()[..ClockCount])) == 15
  {
    ClockBurstTicks();
    RepeatAppend(High, 1, 11);
    assert [High] + Repeat(High, 11) == Repeat(High, 12);
    var pulses := ClockCount - 1;
    assert Line(ClockConfig.idleLevel, ClockTable()[..ClockCount]) == Repeat(High, 12) + Train(pulses) + [High];
    HighFramedTrainEdges(12, pulses);
  }
}
