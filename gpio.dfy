/** The GPIO driver: the LED bank with its blink sessions, the relay bank,
    the fan hysteresis and the button edge detector. The LED, relay and fan
    handlers keep their pin writes commented out; the writes that remain
    live are the gesture animation (gpio.rs lines 240-270) and the restore
    in ReturnState (line 301), which the model gives as the sequence of
    levels written (RestoreWrites) rather than as pin I/O. The model keeps
    the bookkeeping and returns, instead of sending them, the feedback
    events the driver puts on its channel. */
module Gpio {
  import opened Common

  /** Pin levels and LED states of the driver (not the event digits of the
      protocol translator). */
  const ON: u8 := 0
  const OFF: u8 := 1
  const BLINK: u8 := 2

  /** Requests to the driver (`GpioIn`). */
  datatype GpioIn =
    | LedOn(pin: u64)
    | LedOff(pin: u64)
    | LedBlink(pin: u64, blink: bool, time: u16, fre: u16, getTick: nat)
    | RelayOn(pin: u64)
    | RelayOff(pin: u64)
    | ButonBlink
    | ReturnState
    | FanModeLv1
    | FanModeLv2
    | FanModeLv3

  /** Feedback from the driver and the button (`GpioOut`). */
  datatype GpioOut =
    | Stop
    | LedBlinkContinue(ledPin: u64, blink: bool, time: u16, fre: u16)
    | ButtonPressed
    | ButtonReleased
    | LedTwoReleased
    | LedThreeReleased
    | LedFourReleased
    | LedFiveReleased

  /** Who owns the LEDs (`StatusGpio`). */
  datatype StatusGpio = Blink | ButtonPre | LedCtrl

  /** One entry of `leds`: the pin, its state (ON, OFF or BLINK), the tick
      of the last toggle, the toggles done in this blink session and the
      session token (the `fre` that started the session). */
  datatype Led = Led(pin: u64, state: u8, tick: nat, index: u8, token: u16)

  /** One entry of `io`: the relay pin and its state (ON or OFF). */
  datatype Relay = Relay(pin: u64, state: u8)

  datatype FanLevel = Lv1 | Lv2 | Lv3

  function Rank(level: FanLevel): nat {
    match level
    case Lv1 => 1
    case Lv2 => 2
    case Lv3 => 3
  }

  // ---------------------------------------------------------------------
  // LED bank

  /** `leds` after `LedOn`/`LedOff` with state `s`: only the state of entry
      `pin` changes; a pin out of range changes nothing. */
  function SetLedState(leds: seq<Led>, pin: u64, s: u8): (r: seq<Led>)
    ensures |r| == |leds|
    ensures forall i :: 0 <= i < |leds| && i != pin ==> r[i] == leds[i]
    ensures pin < |leds| ==> r[pin] == leds[pin].(state := s)
  {
    if pin < |leds| then leds[pin := leds[pin].(state := s)] else leds
  }

  /** `blink_parse`: a session with token `fre` is admitted exactly when the
      LED exists and its token differs; the token becomes `fre` either way,
      so a rejection leaves the bank as it was. */
  function Admit(leds: seq<Led>, pin: u64, fre: u16): (r: (Result<()>, seq<Led>))
    ensures r.0.Ok? <==> pin < |leds| && leds[pin].token != fre
    ensures r.0.Err? ==> r.0.error == RepeatErr && r.1 == leds
    ensures r.0.Ok? ==> r.1 == leds[pin := leds[pin].(token := fre)]
  {
    if pin < |leds| then
      if leds[pin].token != fre then (Ok(()), leds[pin := leds[pin].(token := fre)])
      else (Err(RepeatErr), leds[pin := leds[pin].(token := fre)])
    else (Err(RepeatErr), leds)
  }

  /** Admitting the same session twice in a row rejects the second. */
  lemma RepeatRejected(leds: seq<Led>, pin: u64, fre: u16)
    ensures Admit(Admit(leds, pin, fre).1, pin, fre).0 == Err(RepeatErr)
  {
  }

  /** Whether a blink step for `led` with token `fre` goes on past the
      session checks: the token matches and the LED is (or becomes) Blink. */
  predicate Survives(led: Led, fre: u16) {
    led.token == fre && (led.index == 0 || led.state == BLINK)
  }

  /** Whether a surviving step toggles: `fre / 100` ticks have passed. */
  predicate Toggles(led: Led, fre: u16, getTick: nat) {
    getTick >= led.tick && getTick - led.tick >= fre / 100
  }

  /** One `LedBlink` step on one entry: the new entry and the continuation
      to schedule, or the panic of the u64 subtraction or the u8 increment. */
  function BlinkStep(led: Led, pin: u64, blink: bool, time: u16, fre: u16, getTick: nat)
    : (r: Outcome<(Led, Option<GpioOut>)>)
    // a stale token: nothing changes, nothing is scheduled
    ensures led.token != fre ==> r == Done((led, None))
    // forced out of Blink while a session ran: the count resets, the session ends
    ensures led.token == fre && !Survives(led, fre) ==> r == Done((led.(index := 0), None))
    // the two panics
    ensures Survives(led, fre) && getTick < led.tick ==> r == Panicked(TickUnderflow)
    ensures Survives(led, fre) && Toggles(led, fre, getTick) && led.index == 255 ==>
              r == Panicked(ToggleOverflow)
    ensures r.Panicked? ==>
              Survives(led, fre) &&
              (getTick < led.tick || (Toggles(led, fre, getTick) && led.index == 255))
    // a surviving step leaves the LED in Blink, with the same pin and token
    ensures Survives(led, fre) && r.Done? ==>
              var l := r.value.0;
              l.state == BLINK && l.pin == led.pin && l.token == led.token
    // a toggle is counted exactly when enough ticks have passed
    ensures Survives(led, fre) && r.Done? && !Toggles(led, fre, getTick) ==>
              r.value == (led.(state := BLINK), Some(LedBlinkContinue(pin, blink, time, fre)))
    ensures Survives(led, fre) && r.Done? && Toggles(led, fre, getTick) ==>
              r.value.0.tick == getTick &&
              if !blink && led.index + 1 >= time % 0x100
              then r.value.0.index == 0 && r.value.1 == None
              else r.value.0.index == led.index + 1 &&
                   r.value.1 == Some(LedBlinkContinue(pin, blink, time, fre))
  {
    if led.token != fre then Done((led, None))
    else
      var state := if led.index == 0 then BLINK else led.state;
      if state != BLINK then Done((led.(index := 0), None))
      else if getTick < led.tick then Panicked(TickUnderflow)
      else if getTick - led.tick >= fre / 100 then
        if led.index == 255 then Panicked(ToggleOverflow)
        else if !blink && led.index + 1 >= time % 0x100 then
          Done((led.(state := state, tick := getTick, index := 0), None))
        else
          Done((led.(state := state, tick := getTick, index := led.index + 1),
                Some(LedBlinkContinue(pin, blink, time, fre))))
      else Done((led.(state := state), Some(LedBlinkContinue(pin, blink, time, fre))))
  }

  /** `LedBlink` on the bank: a pin out of range changes nothing. */
  function BlinkOn(leds: seq<Led>, pin: u64, blink: bool, time: u16, fre: u16, getTick: nat)
    : (r: Outcome<(seq<Led>, Option<GpioOut>)>)
    ensures pin >= |leds| ==> r == Done((leds, None))
    ensures r.Done? ==> |r.value.0| == |leds|
    ensures r.Done? ==> forall i :: 0 <= i < |leds| && i != pin ==> r.value.0[i] == leds[i]
  {
    if pin < |leds| then
      match BlinkStep(leds[pin], pin, blink, time, fre, getTick)
      case Done((led, next)) => Done((leds[pin := led], next))
      case Panicked(k) => Panicked(k)
    else Done((leds, None))
  }

  /** Ticks at which successive steps of a session run, each at least
      `gap` ticks after the previous one (the first after `start`). */
  predicate Spaced(start: nat, ticks: seq<nat>, gap: nat) {
    && (|ticks| > 0 ==> ticks[0] >= start + gap)
    && forall i :: 0 < i < |ticks| ==> ticks[i] >= ticks[i - 1] + gap
  }

  /** An LED switched off in the middle of a session keeps its count, so a
      new session started on it is admitted, but its first step finds the
      LED out of Blink: the count is reset and nothing is scheduled, so the
      LED never blinks, and starting that same session again is rejected. */
  lemma OffMidSessionStalls(leds: seq<Led>, pin: u64, blink: bool, time: u16, fre: u16, getTick: nat)
    requires pin < |leds| && leds[pin].index != 0 && leds[pin].token != fre
    ensures var (admitted, bank) := Admit(SetLedState(leds, pin, OFF), pin, fre);
            && admitted == Ok(())
            && BlinkOn(bank, pin, blink, time, fre, getTick) == Done((bank[pin := bank[pin].(index := 0)], None))
            && Admit(bank[pin := bank[pin].(index := 0)], pin, fre).0 == Err(RepeatErr)
  {
  }

  /** Dropping the first step of a spaced schedule leaves a schedule spaced
      from any start no later than that step. */
  lemma SpacedTail(start: nat, ticks: seq<nat>, gap: nat, from: nat)
    requires Spaced(start, ticks, gap) && |ticks| > 0 && from <= ticks[0]
    ensures Spaced(from, ticks[1..], gap)
  {
    forall i | 0 < i < |ticks[1..]|
      ensures ticks[1..][i] >= ticks[1..][i - 1] + gap
    {
      assert ticks[1..][i] == ticks[i + 1];
    }
    if |ticks| > 1 {
      assert ticks[1] >= ticks[0] + gap;
    }
  }

  /** The number of toggles after which a finite session stops: `time` as
      u8, where 0 still allows the one toggle that ends the session. */
  function SessionLimit(time: u16): nat {
    if time % 0x100 == 0 then 1 else time % 0x100
  }

  /** A blink session run on the step schedule `ticks`: each step is fed
      the continuation of the previous one; the result is the final entry,
      the toggles done and whether a continuation is still pending. */
  function Session(led: Led, pin: u64, blink: bool, time: u16, fre: u16, ticks: seq<nat>)
    : Outcome<(Led, nat, bool)>
    decreases |ticks|
  {
    if ticks == [] then Done((led, 0, true))
    else
      match BlinkStep(led, pin, blink, time, fre, ticks[0])
      case Panicked(k) => Panicked(k)
      case Done((next, cont)) =>
        var toggled := if Survives(led, fre) && Toggles(led, fre, ticks[0]) then 1 else 0;
        if cont.None? then Done((next, toggled, false))
        else
          match Session(next, pin, blink, time, fre, ticks[1..])
          case Panicked(k) => Panicked(k)
          case Done((last, n, pending)) => Done((last, toggled + n, pending))
  }

  /** A finite session of `time % 256 = N` toggles (at least one), started
      on an admitted LED: when every step comes late enough to toggle, the
      session toggles exactly N times, then stops in Blink with the count
      reset to 0. Generalised to a session already `led.index` toggles in. */
  lemma {:induction false} FiniteSession(led: Led, pin: u64, time: u16, fre: u16, ticks: seq<nat>)
    requires led.token == fre && (led.index == 0 || led.state == BLINK)
    requires led.index < SessionLimit(time)
    requires |ticks| == SessionLimit(time) - led.index
    requires Spaced(led.tick, ticks, fre / 100)
    ensures Session(led, pin, false, time, fre, ticks) ==
              Done((led.(state := BLINK, tick := ticks[|ticks| - 1], index := 0), |ticks|, false))
    decreases |ticks|
  {
    var step := BlinkStep(led, pin, false, time, fre, ticks[0]);
    assert ticks[0] >= led.tick + fre / 100;
    assert Toggles(led, fre, ticks[0]);
    if |ticks| > 1 {
      var next := led.(state := BLINK, tick := ticks[0], index := led.index + 1);
      assert step == Done((next, Some(LedBlinkContinue(pin, false, time, fre))));
      SpacedTail(led.tick, ticks, fre / 100, next.tick);
      FiniteSession(next, pin, time, fre, ticks[1..]);
    }
  }

  /** A finite session on any schedule whose steps come in order (none
      before the previous toggle) never panics: either it has stopped, after
      exactly the toggles still due, with the count reset to 0, or a step is
      still pending and fewer toggles than that have been done. */
  lemma {:induction false} SessionEnds(led: Led, pin: u64, time: u16, fre: u16, ticks: seq<nat>)
    requires led.token == fre && (led.index == 0 || led.state == BLINK)
    requires led.index < SessionLimit(time)
    requires Spaced(led.tick, ticks, 0)
    ensures var s := Session(led, pin, false, time, fre, ticks);
            && s.Done?
            && s.value.0.pin == led.pin && s.value.0.token == fre
            && (!s.value.2 ==> s.value.1 == SessionLimit(time) - led.index &&
                               s.value.0.index == 0 && s.value.0.state == BLINK)
            && (s.value.2 ==> s.value.1 < SessionLimit(time) - led.index &&
                              s.value.0.index == led.index + s.value.1)
    decreases |ticks|
  {
    if ticks != [] {
      assert ticks[0] >= led.tick;
      assert Survives(led, fre) && led.index != 255;
      var cont := Some(LedBlinkContinue(pin, false, time, fre));
      if Toggles(led, fre, ticks[0]) {
        if led.index + 1 < time % 0x100 {
          var next := led.(state := BLINK, tick := ticks[0], index := led.index + 1);
          assert BlinkStep(led, pin, false, time, fre, ticks[0]) == Done((next, cont));
          SpacedTail(led.tick, ticks, 0, next.tick);
          SessionEnds(next, pin, time, fre, ticks[1..]);
        }
      } else {
        var next := led.(state := BLINK);
        assert BlinkStep(led, pin, false, time, fre, ticks[0]) == Done((next, cont));
        SpacedTail(led.tick, ticks, 0, next.tick);
        SessionEnds(next, pin, time, fre, ticks[1..]);
      }
    }
  }

  /** An infinite session never stops by itself: on a schedule where every
      step toggles, its count reaches 255 and the next toggle panics. */
  lemma {:induction false} InfiniteSessionOverflows(led: Led, pin: u64, time: u16, fre: u16, ticks: seq<nat>)
    requires led.token == fre && (led.index == 0 || led.state == BLINK)
    requires |ticks| == 256 - led.index
    requires Spaced(led.tick, ticks, fre / 100)
    ensures Session(led, pin, true, time, fre, ticks) == Panicked(ToggleOverflow)
    decreases |ticks|
  {
    assert ticks[0] >= led.tick + fre / 100;
    assert Toggles(led, fre, ticks[0]);
    if led.index < 255 {
      var next := led.(state := BLINK, tick := ticks[0], index := led.index + 1);
      assert BlinkStep(led, pin, true, time, fre, ticks[0]) ==
             Done((next, Some(LedBlinkContinue(pin, true, time, fre))));
      SpacedTail(led.tick, ticks, fre / 100, next.tick);
      InfiniteSessionOverflows(next, pin, time, fre, ticks[1..]);
    }
  }

  /** The toggles before the overflow all succeed: on the same kind of
      schedule, one step shorter, an infinite session does every toggle,
      reaches the count 255 and still has a step pending. */
  lemma {:induction false} InfiniteSessionCounts(led: Led, pin: u64, time: u16, fre: u16, ticks: seq<nat>)
    requires led.token == fre && (led.index == 0 || led.state == BLINK)
    requires |ticks| == 255 - led.index
    requires Spaced(led.tick, ticks, fre / 100)
    ensures var s := Session(led, pin, true, time, fre, ticks);
            && s.Done? && s.value.1 == |ticks| && s.value.2
            && s.value.0.index == 255 && s.value.0.state == BLINK && s.value.0.token == fre
    decreases |ticks|
  {
    if ticks != [] {
      assert ticks[0] >= led.tick + fre / 100;
      assert Toggles(led, fre, ticks[0]);
      var next := led.(state := BLINK, tick := ticks[0], index := led.index + 1);
      assert BlinkStep(led, pin, true, time, fre, ticks[0]) ==
             Done((next, Some(LedBlinkContinue(pin, true, time, fre))));
      SpacedTail(led.tick, ticks, fre / 100, next.tick);
      InfiniteSessionCounts(next, pin, time, fre, ticks[1..]);
    }
  }

  // ---------------------------------------------------------------------
  // Selection at the end of a gesture

  /** The first LED whose live level reads OFF. */
  function FirstOff(levels: seq<u8>): (r: Option<nat>)
    ensures r.Some? ==> r.value < |levels| && levels[r.value] == OFF &&
                        forall j :: 0 <= j < r.value ==> levels[j] != OFF
    ensures r.None? ==> forall j :: 0 <= j < |levels| ==> levels[j] != OFF
  {
    if levels == [] then None
    else if levels[0] == OFF then Some(0)
    else
      match FirstOff(levels[1..])
      case None => None
      case Some(k) => Some(k + 1)
  }

  /** The signal for the LED one past position `k` of the selection. */
  function ReleaseSignal(k: nat): GpioOut {
    if k == 0 then LedTwoReleased
    else if k == 1 then LedThreeReleased
    else if k == 2 then LedFourReleased
    else if k == 3 then LedFiveReleased
    else Stop
  }

  /** The selection decision of `ReturnState`: nothing when no LED reads
      OFF; the usize underflow when the first LED does; otherwise the signal
      for the first LED that does. */
  function Selection(levels: seq<u8>): (r: Outcome<Option<GpioOut>>)
    ensures r == Panicked(SelectionUnderflow) <==> |levels| > 0 && levels[0] == OFF
    ensures r == Done(None) <==> forall j :: 0 <= j < |levels| ==> levels[j] != OFF
    ensures r.Done? && r.value.Some? ==>
              exists k :: 1 <= k < |levels| && levels[k] == OFF &&
                          (forall j :: 0 <= j < k ==> levels[j] != OFF) &&
                          r.value.value == ReleaseSignal(k - 1)
  {
    match FirstOff(levels)
    case None => Done(None)
    case Some(k) => if k == 0 then Panicked(SelectionUnderflow) else Done(Some(ReleaseSignal(k - 1)))
  }

  /** The pin writes of the restore: each LED's own state, except that an
      LED in Blink is left to its session. */
  function RestoreWrites(leds: seq<Led>): (w: seq<Option<u8>>)
  {
    seq(|leds|, i requires 0 <= i < |leds| => if leds[i].state == BLINK then None else Some(leds[i].state))
  }

  // ---------------------------------------------------------------------
  // Relays and fan

  /** `io` after `RelayOn`/`RelayOff` with state `s`. */
  function SetRelay(io: seq<Relay>, pin: u64, s: u8): (r: seq<Relay>)
    ensures |r| == |io|
    ensures forall i :: 0 <= i < |io| && i != pin ==> r[i] == io[i]
    ensures pin < |io| ==> r[pin] == io[pin].(state := s)
  {
    if pin < |io| then io[pin := io[pin].(state := s)] else io
  }

  /** What `get_value_relay` reports. */
  function RelaySnapshot(io: seq<Relay>): seq<bool> {
    seq(|io|, i requires 0 <= i < |io| => io[i].state == ON)
  }

  /** The hysteresis table of `control_fan` for a reading `cpu` that moved by
      `diff`: the bands 48..=52 and 59..=62 pick the lower level when cooling. */
  function FanLevelFor(cpu: int, diff: int): FanLevel {
    if cpu < 48 then Lv1
    else if cpu <= 52 then (if diff < 0 then Lv1 else Lv2)
    else if cpu <= 58 then Lv2
    else if cpu <= 62 then (if diff < 0 then Lv2 else Lv3)
    else Lv3
  }

  /** The whole decision of `control_fan`: the i32 difference to the last
      reading, no level when it is zero, the table otherwise. */
  function FanDecision(cpu: i32, last: u32): (r: Outcome<Option<FanLevel>>)
    ensures r.Panicked? <==> !(-0x8000_0000 <= cpu - AsI32(last) < 0x8000_0000)
    ensures r.Done? ==> (r.value.None? <==> cpu == AsI32(last))
    ensures r.Done? && r.value.Some? ==> r.value.value == FanLevelFor(cpu, cpu - AsI32(last))
  {
    var diff := cpu - AsI32(last);
    if !(-0x8000_0000 <= diff < 0x8000_0000) then Panicked(TempDiffOverflow)
    else if diff == 0 then Done(None)
    else Done(Some(FanLevelFor(cpu, diff)))
  }

  /** For a fixed direction, the level never falls as the temperature rises. */
  lemma FanMonotone(c1: int, c2: int, d1: int, d2: int)
    requires c1 <= c2 && (d1 < 0 <==> d2 < 0)
    ensures Rank(FanLevelFor(c1, d1)) <= Rank(FanLevelFor(c2, d2))
  {
  }

  /** The levels emitted for successive readings, starting from `last`
      (readings in a range where the i32 difference cannot overflow). */
  function FanLevels(last: int, temps: seq<int>): (r: seq<Option<FanLevel>>)
    ensures |r| == |temps|
    decreases |temps|
  {
    if temps == [] then []
    else
      var d := temps[0] - last;
      [if d == 0 then None else Some(FanLevelFor(temps[0], d))] + FanLevels(temps[0], temps[1..])
  }

  /** `control_fan` called on each reading in turn, each call remembering
      the reading as its `last`: the levels emitted, or the first panic. */
  function FanRun(last: u32, temps: seq<i32>): (r: Outcome<seq<Option<FanLevel>>>)
    ensures r.Done? ==> |r.value| == |temps|
    ensures r.Panicked? ==> r.kind == TempDiffOverflow
    decreases |temps|
  {
    if temps == [] then Done([])
    else
      match FanDecision(temps[0], last)
      case Panicked(k) => Panicked(k)
      case Done(level) =>
        match FanRun(AsU32(temps[0]), temps[1..])
        case Panicked(k) => Panicked(k)
        case Done(levels) => Done([level] + levels)
  }

  /** Whether every difference between successive readings, the first
      taken from `last`, fits in an i32. */
  predicate DiffsFit(last: int, temps: seq<int>)
    decreases |temps|
  {
    temps == [] ||
    (-0x8000_0000 <= temps[0] - last < 0x8000_0000 && DiffsFit(temps[0], temps[1..]))
  }

  /** Running `control_fan` over the readings emits exactly `FanLevels`
      while the differences fit in an i32, and panics otherwise. */
  lemma {:induction false} FanRunLevels(last: i32, temps: seq<i32>)
    ensures FanRun(AsU32(last), temps) ==
            if DiffsFit(last, temps) then Done(FanLevels(last, temps)) else Panicked(TempDiffOverflow)
    decreases |temps|
  {
    if temps != [] {
      var rest := temps[1..];
      assert AsI32(AsU32(last)) == last;
      FanRunLevels(temps[0], rest);
      var d := temps[0] - last;
      if -0x8000_0000 <= d < 0x8000_0000 {
        var head := if d == 0 then None else Some(FanLevelFor(temps[0], d));
        assert FanDecision(temps[0], AsU32(last)) == Done(head);
        assert FanLevels(last, temps) == [head] + FanLevels(temps[0], rest);
      }
    }
  }

  /** Levels emitted while the temperature only rises never fall. */
  lemma {:induction false} RisingLevels(last: int, temps: seq<int>)
    requires |temps| > 0 ==> temps[0] > last
    requires forall i :: 0 < i < |temps| ==> temps[i] > temps[i - 1]
    ensures forall i :: 0 <= i < |temps| ==> FanLevels(last, temps)[i].Some?
    ensures forall i, j :: 0 <= i < j < |temps| ==>
              Rank(FanLevels(last, temps)[i].value) <= Rank(FanLevels(last, temps)[j].value)
    decreases |temps|
  {
    if temps != [] {
      var rest := temps[1..];
      forall i | 0 < i < |rest| ensures rest[i] > rest[i - 1] {
        assert rest[i] == temps[i + 1] && rest[i - 1] == temps[i];
      }
      assert |rest| > 0 ==> rest[0] == temps[1];
      RisingLevels(temps[0], rest);
      var r, tail := FanLevels(last, temps), FanLevels(temps[0], rest);
      assert temps[0] > last;
      assert forall i :: 0 < i < |temps| ==> r[i] == tail[i - 1];
      if |temps| > 1 {
        assert temps[1] > temps[0];
        FanMonotone(temps[0], temps[1], temps[0] - last, temps[1] - temps[0]);
        assert Rank(r[0].value) <= Rank(r[1].value);
      }
    }
  }

  /** Levels emitted while the temperature only falls never rise. */
  lemma {:induction false} FallingLevels(last: int, temps: seq<int>)
    requires |temps| > 0 ==> temps[0] < last
    requires forall i :: 0 < i < |temps| ==> temps[i] < temps[i - 1]
    ensures forall i :: 0 <= i < |temps| ==> FanLevels(last, temps)[i].Some?
    ensures forall i, j :: 0 <= i < j < |temps| ==>
              Rank(FanLevels(last, temps)[i].value) >= Rank(FanLevels(last, temps)[j].value)
    decreases |temps|
  {
    if temps != [] {
      var rest := temps[1..];
      forall i | 0 < i < |rest| ensures rest[i] < rest[i - 1] {
        assert rest[i] == temps[i + 1] && rest[i - 1] == temps[i];
      }
      assert |rest| > 0 ==> rest[0] == temps[1];
      FallingLevels(temps[0], rest);
      var r, tail := FanLevels(last, temps), FanLevels(temps[0], rest);
      assert temps[0] < last;
      assert forall i :: 0 < i < |temps| ==> r[i] == tail[i - 1];
      if |temps| > 1 {
        assert temps[1] < temps[0];
        FanMonotone(temps[1], temps[0], temps[1] - temps[0], temps[0] - last);
        assert Rank(r[0].value) >= Rank(r[1].value);
      }
    }
  }

  /** The readings 45, 50, 50 from a start of 0 emit Lv1, then Lv2, then
      nothing. */
  lemma FanScenario()
    ensures FanLevels(0, [45, 50, 50]) == [Some(Lv1), Some(Lv2), None]
  {
    assert [45, 50, 50][1..] == [50, 50];
    assert [50, 50][1..] == [50];
  }

  // ---------------------------------------------------------------------
  // Button

  /** The edge detector of `button_handle`: an event only when the level
      read differs from the stored one, Pressed for 0 and Released otherwise. */
  function ButtonEdge(stored: u8, level: u8): (r: Option<GpioOut>)
    ensures r.None? <==> stored == level
    ensures r.Some? ==> r.value == (if level == 0 then ButtonPressed else ButtonReleased)
  {
    if stored != level then Some(if level == 0 then ButtonPressed else ButtonReleased) else None
  }

  /** The events of successive polls reading `levels`. */
  function Polls(stored: u8, levels: seq<u8>): seq<GpioOut>
    decreases |levels|
  {
    if levels == [] then []
    else
      var e := ButtonEdge(stored, levels[0]);
      (if e.Some? then [e.value] else []) + Polls(levels[0], levels[1..])
  }

  /** Polls reading the stored level again and again emit nothing. */
  lemma {:induction false} SteadyPollsSilent(stored: u8, levels: seq<u8>)
    requires forall i :: 0 <= i < |levels| ==> levels[i] == stored
    ensures Polls(stored, levels) == []
    decreases |levels|
  {
    if levels != [] {
      SteadyPollsSilent(stored, levels[1..]);
    }
  }

  /** On a two-level line, the events of successive polls alternate: never
      two presses or two releases in a row, and the first event is the one
      away from the stored level. */
  lemma {:induction false} PollsAlternate(stored: u8, levels: seq<u8>)
    requires stored <= 1 && forall i :: 0 <= i < |levels| ==> levels[i] <= 1
    ensures var ev := Polls(stored, levels);
            && (forall i :: 0 <= i < |ev| ==> ev[i] == ButtonPressed || ev[i] == ButtonReleased)
            && (|ev| > 0 ==> ev[0] == (if stored == 1 then ButtonPressed else ButtonReleased))
            && (forall i :: 0 <= i < |ev| - 1 ==> ev[i] != ev[i + 1])
    decreases |levels|
  {
    if levels != [] {
      PollsAlternate(levels[0], levels[1..]);
      var rest := Polls(levels[0], levels[1..]);
      if stored != levels[0] {
        var ev := Polls(stored, levels);
        assert ev == [ev[0]] + rest;
        forall i | 0 <= i < |ev| - 1 ensures ev[i] != ev[i + 1] {
          if i > 0 { assert ev[i] == rest[i - 1] && ev[i + 1] == rest[i]; }
        }
      }
    }
  }

  /** The button driver: the level it last saw, which starts at 1. */
  class ButtonDriver {
    const button: u64
    var temp: u8

    constructor (buttonPin: u64)
      ensures button == buttonPin && temp == 1
    {
      button := buttonPin;
      temp := 1;
    }

    /** `button_handle` with the level read from the pin: the event to send
      to the button channel, if any; the stored level becomes the one read. */
    method ButtonHandle(val: u8) returns (ev: Option<GpioOut>)
      modifies this
      ensures ev == ButtonEdge(old(temp), val)
      ensures temp == val
    {
      ev := None;
      if temp != val {
        if val == 0 {
          ev := Some(ButtonPressed);
        } else {
          ev := Some(ButtonReleased);
        }
        temp := val;
      }
    }
  }

  /** The GPIO driver's bookkeeping. */
  class GpioDriver {
    var leds: seq<Led>
    var io: seq<Relay>
    const fan: seq<u64>
    const buttonPin: u64
    var status: StatusGpio
    const timeBlink: u64
    var lastCpuTemperature: u32

    /** `GpioDriver::new`: every LED and relay starts OFF with no session. */
    constructor (ledPins: seq<u64>, ioPins: seq<u64>, fanPins: seq<u64>, timeBlink: u64, buttonPin: u64)
      ensures leds == seq(|ledPins|, i requires 0 <= i < |ledPins| => Led(ledPins[i], OFF, 0, 0, 0))
      ensures io == seq(|ioPins|, i requires 0 <= i < |ioPins| => Relay(ioPins[i], OFF))
      ensures fan == fanPins && this.buttonPin == buttonPin && this.timeBlink == timeBlink
      ensures status == LedCtrl && lastCpuTemperature == 0
    {
      var ls: seq<Led> := [];
      for k := 0 to |ledPins|
        invariant ls == seq(k, i requires 0 <= i < k => Led(ledPins[i], OFF, 0, 0, 0))
      {
        ls := ls + [Led(ledPins[k], OFF, 0, 0, 0)];
      }
      var rs: seq<Relay> := [];
      for k := 0 to |ioPins|
        invariant rs == seq(k, i requires 0 <= i < k => Relay(ioPins[i], OFF))
      {
        rs := rs + [Relay(ioPins[k], OFF)];
      }
      leds := ls;
      io := rs;
      fan := fanPins;
      this.buttonPin := buttonPin;
      status := LedCtrl;
      this.timeBlink := timeBlink;
      lastCpuTemperature := 0;
    }

    /** `send(LedOn{pin})`. */
    method LedOn(pin: u64)
      modifies this`leds
      ensures leds == SetLedState(old(leds), pin, ON)
    {
      if pin < |leds| {
        leds := leds[pin := leds[pin].(state := ON)];
      }
    }

    /** `send(LedOff{pin})`. */
    method LedOff(pin: u64)
      modifies this`leds
      ensures leds == SetLedState(old(leds), pin, OFF)
    {
      if pin < |leds| {
        leds := leds[pin := leds[pin].(state := OFF)];
      }
    }

    /** `send(LedBlink{..})`: one session step; the continuation it spawns
      (sent back after `fre` ms) is returned. On a panic the process ends;
      the model then leaves the bank as it was. */
    method LedBlink(pin: u64, blink: bool, time: u16, fre: u16, getTick: nat)
      returns (r: Outcome<Option<GpioOut>>)
      modifies this`leds
      ensures match BlinkOn(old(leds), pin, blink, time, fre, getTick)
              case Done((ls, next)) => leds == ls && r == Done(next)
              case Panicked(k) => leds == old(leds) && r == Panicked(k)
    {
      if pin < |leds| {
        var led := leds[pin];
        if led.token == fre {
          var f := fre / 100;
          var state, tick, index := led.state, led.tick, led.index;
          if index == 0 {
            state := BLINK;
          }
          if state != BLINK {
            leds := leds[pin := led.(index := 0)];
            return Done(None);
          }
          if getTick < tick {
            return Panicked(TickUnderflow);
          }
          if getTick - tick >= f {
            tick := getTick;
            if index == 255 {
              return Panicked(ToggleOverflow);
            }
            index := index + 1;
            if !blink && index >= time % 0x100 {
              leds := leds[pin := Led(led.pin, state, tick, 0, led.token)];
              return Done(None);
            }
          }
          leds := leds[pin := Led(led.pin, state, tick, index, led.token)];
          return Done(Some(LedBlinkContinue(pin, blink, time, fre)));
        }
      }
      r := Done(None);
    }

    /** `blink_parse`. */
    method BlinkParse(pin: u64, freInit: u16) returns (r: Result<()>)
      modifies this`leds
      ensures (r, leds) == Admit(old(leds), pin, freInit)
    {
      if pin < |leds| {
        var led := leds[pin];
        if led.token != freInit {
          leds := leds[pin := led.(token := freInit)];
          return Ok(());
        } else {
          leds := leds[pin := led.(token := freInit)];
          return Err(RepeatErr);
        }
      }
      return Err(RepeatErr);
    }

    /** `send(ReturnState)` with the live level of every LED: the selection
      signal sent to the channel and the restore writes, one per LED. */
    method ReturnState(levels: seq<u8>) returns (r: Outcome<(Option<GpioOut>, seq<Option<u8>>)>)
      requires |levels| == |leds|
      ensures Selection(levels).Panicked? ==> r == Panicked(SelectionUnderflow)
      ensures Selection(levels).Done? ==> r == Done((Selection(levels).value, RestoreWrites(leds)))
    {
      var signal: Option<GpioOut> := None;
      var index := 0;
      while index < |leds|
        invariant 0 <= index <= |leds|
        invariant forall j :: 0 <= j < index ==> levels[j] != OFF
        invariant signal.None?
      {
        if levels[index] == OFF {
          if index == 0 {
            return Panicked(SelectionUnderflow);
          }
          signal := Some(ReleaseSignal(index - 1));
          break;
        }
        index := index + 1;
      }
      assert signal == Selection(levels).value;
      ghost var writesSpec := RestoreWrites(leds);
      var writes: seq<Option<u8>> := [];
      for k := 0 to |leds|
        invariant writes == RestoreWrites(leds)[..k]
      {
        if leds[k].state == BLINK {
          writes := writes + [None];
        } else {
          writes := writes + [Some(leds[k].state)];
        }
      }
      assert writes == writesSpec[..|leds|] == writesSpec;
      return Done((signal, writes));
    }

    /** `send(RelayOn{pin})`. */
    method RelayOn(pin: u64)
      modifies this`io
      ensures io == SetRelay(old(io), pin, ON)
    {
      if pin < |io| {
        io := io[pin := io[pin].(state := ON)];
      }
    }

    /** `send(RelayOff{pin})`. */
    method RelayOff(pin: u64)
      modifies this`io
      ensures io == SetRelay(old(io), pin, OFF)
    {
      if pin < |io| {
        io := io[pin := io[pin].(state := OFF)];
      }
    }

    /** `control_fan`: the level to drive the fan to, if any; the reading is
      recorded whatever the decision. */
    method ControlFan(cpuTemperature: i32) returns (r: Outcome<Option<FanLevel>>)
      modifies this`lastCpuTemperature
      ensures r == FanDecision(cpuTemperature, old(lastCpuTemperature))
      ensures r.Done? ==> lastCpuTemperature == AsU32(cpuTemperature)
      ensures r.Panicked? ==> lastCpuTemperature == old(lastCpuTemperature)
    {
      var diff := cpuTemperature - AsI32(lastCpuTemperature);
      if !(-0x8000_0000 <= diff < 0x8000_0000) {
        return Panicked(TempDiffOverflow);
      }
      r := Done(None);
      if diff != 0 {
        if cpuTemperature < 48 {
          r := Done(Some(Lv1));
        } else if cpuTemperature <= 52 {
          if diff < 0 {
            r := Done(Some(Lv1));
          } else {
            r := Done(Some(Lv2));
          }
        } else if cpuTemperature <= 58 {
          r := Done(Some(Lv2));
        } else if cpuTemperature <= 62 {
          if diff < 0 {
            r := Done(Some(Lv2));
          } else {
            r := Done(Some(Lv3));
          }
        } else {
          r := Done(Some(Lv3));
        }
      }
      lastCpuTemperature := AsU32(cpuTemperature);
    }

    /** `get_value_relay`: one flag per relay, in order, true iff it is ON. */
    method GetValueRelay() returns (states: seq<bool>)
      ensures |states| == |io|
      ensures forall i :: 0 <= i < |io| ==> (states[i] <==> io[i].state == ON)
      ensures states == RelaySnapshot(io)
    {
      states := [];
      for k := 0 to |io|
        invariant |states| == k
        invariant forall i :: 0 <= i < k ==> (states[i] <==> io[i].state == ON)
      {
        if io[k].state == ON {
          states := states + [true];
        } else {
          states := states + [false];
        }
      }
    }
  }

  /** Freshly configured relays all report Off. */
  lemma InitialRelaysOff(ioPins: seq<u64>)
    ensures var snap := RelaySnapshot(seq(|ioPins|, i requires 0 <= i < |ioPins| => Relay(ioPins[i], OFF)));
            |snap| == |ioPins| && forall i :: 0 <= i < |snap| ==> !snap[i]
  {
  }
}
