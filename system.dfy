/** The reactor `SystemIntergration`: one pass of `recv` takes one input
    (a tick, a broker message or a feedback event), hands it to the
    translator and then drains the action queue into the GPIO driver and
    the broker. Pin reads of the pass (the level of each LED, the CPU
    temperature) are given as an environment; the request ids the JSON
    builder draws come from a fixed stream. */
module Integration {
  import opened Common
  import opened JsonValue
  import opened Json
  import opened Gpio
  import opened Logic

  const STATUS_TOPIC: string := "component/io/status"
  const CONFIG_TOPIC: string := "component/io/config"
  const KEEPALIVE_TOPIC: string := "component/keepalive/io-manager"

  /** Ticks (of 100 ms) between two keep-alive messages. */
  const KEEPALIVE_TICKS: nat := 400

  /** `new`: "Ai" selects the Ai device, every other string the Hc one. */
  function DeviceFromString(device: string): (r: DeviceOs)
    ensures r == Ai <==> device == "Ai"
    ensures r != NoDevice
  {
    if device == "Ai" then Ai else Hc
  }

  /** Which branch of the `select!` fired. */
  datatype Wake =
    | TickFired(buttonLevel: u8)              // the interval, with the button level read
    | Received(message: Result<TransportOut>)  // the broker
    | GpioReady                                // the driver's feedback channel
    | ButtonReady                              // the button's channel

  /** What the pins read during one pass. */
  datatype Env = Env(ledLevel: nat -> u8, temperature: Result<u32>)

  /** What the reactor knows and never changes. */
  datatype Ctx = Ctx(mac: string, device: DeviceOs, reqids: nat -> string)

  /** The observable state of the reactor and of everything it drives:
      the queue, the counters, the driver's bookkeeping, the stored button
      level, the two feedback channels, the messages published, the number
      of request ids drawn, the requests sent to the driver, and the panic
      that ended the process, if any. */
  datatype SysState = SysState(
    outputs: seq<GpioLogicOut>,
    tick: nat,
    index: nat,
    leds: seq<Led>,
    io: seq<Relay>,
    status: StatusGpio,
    lastCpu: u32,
    buttonTemp: u8,
    gpioChannel: seq<GpioOut>,
    buttonChannel: seq<GpioOut>,
    published: seq<(string, Value)>,
    drawn: nat,
    sent: seq<GpioIn>,
    fault: Option<PanicKind>)

  function OptSeq<T>(o: Option<T>): seq<T> {
    if o.Some? then [o.value] else []
  }

  /** The state right after `new`. */
  function InitialState(ledPins: seq<u64>, ioPins: seq<u64>): SysState {
    SysState([NoneAction], 0, 0,
             seq(|ledPins|, i requires 0 <= i < |ledPins| => Led(ledPins[i], OFF, 0, 0, 0)),
             seq(|ioPins|, i requires 0 <= i < |ioPins| => Relay(ioPins[i], OFF)),
             LedCtrl, 0, 1, [], [], [], 0, [], None)
  }

  /** The actions `WAIT_UNLOCK` holds back while the button owns the LEDs. */
  predicate Deferred(a: GpioLogicOut) {
    a.LedOnEvent? || a.LedOffEvent? || a.LedBlinkEvent? || a.LedBlinkContinueEvent?
  }

  function FanRequest(level: FanLevel): GpioIn {
    match level
    case Lv1 => FanModeLv1
    case Lv2 => FanModeLv2
    case Lv3 => FanModeLv3
  }

  /** The levels the first `n` LED pins read. */
  function Levels(env: Env, n: nat): (r: seq<u8>)
    ensures |r| == n
    decreases n
  {
    if n == 0 then [] else Levels(env, n - 1) + [env.ledLevel(n - 1)]
  }

  /** A blink step request stamped with the current tick: the continuation
      goes to the feedback channel; a panic ends the process. */
  function BlinkRequest(s: SysState, pin: u64, blink: bool, time: u16, fre: u16): (r: SysState)
    ensures r.sent == s.sent + [LedBlink(pin, blink, time, fre, s.tick)]
  {
    var s1 := s.(sent := s.sent + [LedBlink(pin, blink, time, fre, s.tick)]);
    match BlinkOn(s.leds, pin, blink, time, fre, s.tick)
    case Panicked(k) => s1.(fault := Some(k))
    case Done((leds, next)) => s1.(leds := leds, gpioChannel := s.gpioChannel + OptSeq(next))
  }

  /** A relay event: switch the relay, then publish its status record. */
  function RelaySwitch(s: SysState, relay: usize, jsonInit: Value, on: bool, ctx: Ctx): SysState {
    var mess := StatusMessage(jsonInit, [(on, DeviceHash(ctx.mac, relay))]);
    s.(io := SetRelay(s.io, relay, if on then ON else OFF),
       sent := s.sent + [if on then RelayOn(relay) else RelayOff(relay)],
       published := s.published + [(STATUS_TOPIC, mess)])
  }

  /** One action of the drain loop, once it is past `WAIT_UNLOCK`. */
  function Apply(s: SysState, a: GpioLogicOut, env: Env, ctx: Ctx): (r: SysState)
    // the queue and the counters are not the action's business
    ensures r.outputs == s.outputs && r.tick == s.tick && r.index == s.index
    ensures r.buttonTemp == s.buttonTemp && r.buttonChannel == s.buttonChannel
    ensures r.drawn >= s.drawn
    ensures |r.leds| == |s.leds| && |r.io| == |s.io|
    // only the LED actions touch the LEDs
    ensures !Deferred(a) ==> r.leds == s.leds
    // only the button gesture takes the LEDs, only the restore gives them back
    ensures r.status == ButtonPre <==>
              a.ButtonBlinkEvent? || (s.status == ButtonPre && !a.ReturnState? && !a.LedBlinkEvent?)
    ensures a.ReturnState? ==> r.status == LedCtrl
    ensures a.LedBlinkEvent? ==> r.status == Blink
    // None and Stop are consumed without effect
    ensures a.NoneAction? || a.StopEvent? ==> r == s
    // a panic is the only way the process ends
    ensures r.fault != s.fault ==>
              r.fault.Some? && (a.LedBlinkEvent? || a.LedBlinkContinueEvent? || a.ReturnState? || a.CheckTempCpuEvent?)
  {
    match a
    case NoneAction => s
    case StopEvent => s
    case KeepAliveEvent =>
      var (mess, _) := KeepAlive(ctx.reqids(s.drawn));
      s.(published := s.published + [(KEEPALIVE_TOPIC, mess)], drawn := s.drawn + 1)
    case LedOnEvent(pin) => s.(leds := SetLedState(s.leds, pin, ON), sent := s.sent + [LedOn(pin)])
    case LedOffEvent(pin) => s.(leds := SetLedState(s.leds, pin, OFF), sent := s.sent + [LedOff(pin)])
    case LedBlinkContinueEvent(pin, blink, time, fre) => BlinkRequest(s, pin, blink, time, fre)
    case LedBlinkEvent(pin, blink, time, fre) =>
      var (admitted, leds) := Admit(s.leds, pin, fre);
      var s1 := s.(status := Blink, leds := leds);
      if admitted.Ok? then BlinkRequest(s1, pin, blink, time, fre) else s1
    case ButtonBlinkEvent => s.(status := ButtonPre, sent := s.sent + [ButonBlink])
    case ReturnState =>
      var s1 := s.(status := LedCtrl, sent := s.sent + [GpioIn.ReturnState]);
      (match Selection(Levels(env, |s.leds|))
       case Panicked(k) => s1.(fault := Some(k))
       case Done(signal) => s1.(gpioChannel := s.gpioChannel + OptSeq(signal)))
    case RelayOnEvent(relay, jsonInit) => RelaySwitch(s, relay, jsonInit, true, ctx)
    case RelayOffEvent(relay, jsonInit) => RelaySwitch(s, relay, jsonInit, false, ctx)
    case ConfigRelayEvent =>
      var (config, st) := SyncMessages(RelaySnapshot(s.io), ctx.mac, ctx.reqids(s.drawn), ctx.reqids(s.drawn + 1));
      s.(published := s.published + [(CONFIG_TOPIC, config), (STATUS_TOPIC, st)], drawn := s.drawn + 2)
    case CheckTempCpuEvent =>
      match env.temperature
      case Err(_) => s
      case Ok(t) =>
        (match FanDecision(AsI32(t), s.lastCpu)
         case Panicked(k) => s.(fault := Some(k))
         case Done(level) =>
           s.(lastCpu := t, sent := s.sent + (if level.Some? then [FanRequest(level.value)] else [])))
  }

  /** The drain loop: pop and apply until the queue is empty, a panic ends
      the process, or an LED action meets the button lock, in which case it
      goes back to the end of the queue and the pass ends. */
  function Drain(s: SysState, env: Env, ctx: Ctx): SysState
    decreases |s.outputs|
  {
    if s.fault.Some? || s.outputs == [] then s
    else
      var a := s.outputs[0];
      var rest := s.(outputs := s.outputs[1..]);
      if Deferred(a) && s.status == ButtonPre then rest.(outputs := rest.outputs + [a])
      else Drain(Apply(rest, a, env, ctx), env, ctx)
  }

  /** The tick branch: poll the button, advance both counters, and every
      400 ticks queue a keep-alive and a temperature check. */
  function TickStep(s: SysState, level: u8): SysState {
    var due := s.index + 1 >= KEEPALIVE_TICKS;
    s.(buttonTemp := level,
       buttonChannel := s.buttonChannel + OptSeq(ButtonEdge(s.buttonTemp, level)),
       tick := s.tick + 1,
       index := if due then 0 else s.index + 1,
       outputs := s.outputs + (if due then [KeepAliveEvent, CheckTempCpuEvent] else []))
  }

  /** `on_event` on the reactor state. */
  function Feed(s: SysState, event: GpioLogicIn, ctx: Ctx): SysState {
    match Translate(event, ctx.device, ctx.mac)
    case Done(acts) => s.(outputs := s.outputs + acts)
    case Panicked(k) => s.(fault := Some(k))
  }

  /** A branch of the `select!` can fire only when its channel holds an event. */
  predicate Ready(s: SysState, wake: Wake) {
    && (wake.GpioReady? ==> s.gpioChannel != [])
    && (wake.ButtonReady? ==> s.buttonChannel != [])
  }

  /** The branch of the `select!` that fired. */
  function Receive(s: SysState, wake: Wake, ctx: Ctx): SysState
    requires Ready(s, wake)
  {
    match wake
    case TickFired(level) => TickStep(s, level)
    case Received(m) => Feed(s, Transport(m), ctx)
    case GpioReady => Feed(s.(gpioChannel := s.gpioChannel[1..]), GpioFeedback(Ok(s.gpioChannel[0])), ctx)
    case ButtonReady => Feed(s.(buttonChannel := s.buttonChannel[1..]), GpioFeedback(Ok(s.buttonChannel[0])), ctx)
  }

  /** One pass of `recv`. */
  function Step(s: SysState, wake: Wake, env: Env, ctx: Ctx): SysState
    requires Ready(s, wake)
  {
    Drain(Receive(s, wake, ctx), env, ctx)
  }

  // ---------------------------------------------------------------------
  // Properties of a drain pass

  /** A pass that does not panic ends with an empty queue, or with the
      button holding the LEDs and an LED action parked at the back. */
  lemma {:induction false} DrainEnds(s: SysState, env: Env, ctx: Ctx)
    ensures var r := Drain(s, env, ctx);
            r.fault.None? ==> r.outputs == [] || (r.status == ButtonPre && Deferred(r.outputs[|r.outputs| - 1]))
    decreases |s.outputs|
  {
    if s.fault.None? && s.outputs != [] {
      var a := s.outputs[0];
      var rest := s.(outputs := s.outputs[1..]);
      if !(Deferred(a) && s.status == ButtonPre) {
        DrainEnds(Apply(rest, a, env, ctx), env, ctx);
      }
    }
  }

  /** When the button does not hold the LEDs and no gesture is queued, a
      pass that does not panic empties the queue. */
  lemma {:induction false} DrainEmpties(s: SysState, env: Env, ctx: Ctx)
    requires s.status != ButtonPre
    requires forall i :: 0 <= i < |s.outputs| ==> s.outputs[i] != ButtonBlinkEvent
    ensures Drain(s, env, ctx).fault.None? ==> Drain(s, env, ctx).outputs == []
    decreases |s.outputs|
  {
    if s.fault.None? && s.outputs != [] {
      var a := s.outputs[0];
      var rest := s.(outputs := s.outputs[1..]);
      var next := Apply(rest, a, env, ctx);
      assert forall i :: 0 <= i < |next.outputs| ==> next.outputs[i] == s.outputs[i + 1];
      DrainEmpties(next, env, ctx);
    }
  }

  /** While the button holds the LEDs and no restore is queued, a pass
      leaves every LED as it was and the lock in place. */
  lemma {:induction false} LockedLedsUntouched(s: SysState, env: Env, ctx: Ctx)
    requires s.status == ButtonPre
    requires forall i :: 0 <= i < |s.outputs| ==> s.outputs[i] != GpioLogicOut.ReturnState
    ensures Drain(s, env, ctx).leds == s.leds
    ensures Drain(s, env, ctx).status == ButtonPre
    decreases |s.outputs|
  {
    if s.fault.None? && s.outputs != [] {
      var a := s.outputs[0];
      var rest := s.(outputs := s.outputs[1..]);
      if !Deferred(a) {
        var next := Apply(rest, a, env, ctx);
        assert forall i :: 0 <= i < |next.outputs| ==> next.outputs[i] == s.outputs[i + 1];
        LockedLedsUntouched(next, env, ctx);
      }
    }
  }

  /** A held-back action is not lost: it moves from the front of the queue
      to the back, and nothing else happens in that pass. */
  lemma DeferredRequeued(s: SysState, env: Env, ctx: Ctx)
    requires s.fault.None? && s.outputs != [] && s.status == ButtonPre && Deferred(s.outputs[0])
    ensures Drain(s, env, ctx) == s.(outputs := s.outputs[1..] + [s.outputs[0]])
    ensures multiset(Drain(s, env, ctx).outputs) == multiset(s.outputs)
  {
    assert s.outputs == [s.outputs[0]] + s.outputs[1..];
  }

  // ---------------------------------------------------------------------
  // The u64 subtraction of a blink step never underflows

  /** Every LED's last toggle lies in the past of the tick counter. */
  predicate TicksBehind(s: SysState) {
    forall i :: 0 <= i < |s.leds| ==> s.leds[i].tick <= s.tick
  }

  lemma BlinkOnTicks(leds: seq<Led>, pin: u64, blink: bool, time: u16, fre: u16, getTick: nat)
    requires forall i :: 0 <= i < |leds| ==> leds[i].tick <= getTick
    ensures BlinkOn(leds, pin, blink, time, fre, getTick) != Panicked(TickUnderflow)
    ensures match BlinkOn(leds, pin, blink, time, fre, getTick)
            case Done((ls, _)) => forall i :: 0 <= i < |ls| ==> ls[i].tick <= getTick
            case Panicked(_) => true
  {
    if pin < |leds| {
      var step := BlinkStep(leds[pin], pin, blink, time, fre, getTick);
      assert step.Done? ==> step.value.0.tick == leds[pin].tick || step.value.0.tick == getTick;
    }
  }

  lemma ApplyTicks(s: SysState, a: GpioLogicOut, env: Env, ctx: Ctx)
    requires TicksBehind(s)
    ensures TicksBehind(Apply(s, a, env, ctx))
    ensures Apply(s, a, env, ctx).fault == Some(TickUnderflow) ==> s.fault == Some(TickUnderflow)
  {
    match a
    case LedBlinkContinueEvent(pin, blink, time, fre) =>
      BlinkOnTicks(s.leds, pin, blink, time, fre, s.tick);
    case LedBlinkEvent(pin, blink, time, fre) =>
      var leds := Admit(s.leds, pin, fre).1;
      assert forall i :: 0 <= i < |leds| ==> leds[i].tick == s.leds[i].tick;
      BlinkOnTicks(leds, pin, blink, time, fre, s.tick);
    case _ =>
  }

  /** A drain pass started with every LED behind the tick counter never
      panics on the tick subtraction, and keeps every LED behind it. */
  lemma {:induction false} DrainTicks(s: SysState, env: Env, ctx: Ctx)
    requires TicksBehind(s) && s.fault != Some(TickUnderflow)
    ensures TicksBehind(Drain(s, env, ctx)) && Drain(s, env, ctx).fault != Some(TickUnderflow)
    decreases |s.outputs|
  {
    if s.fault.None? && s.outputs != [] {
      var a := s.outputs[0];
      var rest := s.(outputs := s.outputs[1..]);
      if !(Deferred(a) && s.status == ButtonPre) {
        ApplyTicks(rest, a, env, ctx);
        DrainTicks(Apply(rest, a, env, ctx), env, ctx);
      }
    }
  }

  /** Hence no pass of the reactor, from the initial state on, ever
      panics on the tick subtraction. */
  lemma StepTicks(s: SysState, wake: Wake, env: Env, ctx: Ctx)
    requires Ready(s, wake) && TicksBehind(s) && s.fault != Some(TickUnderflow)
    ensures TicksBehind(Step(s, wake, env, ctx)) && Step(s, wake, env, ctx).fault != Some(TickUnderflow)
  {
    var t := Receive(s, wake, ctx);
    assert t.leds == s.leds && t.tick >= s.tick;
    assert t.fault == s.fault || t.fault == Some(EventCodeNotNumeric);
    DrainTicks(t, env, ctx);
  }

  lemma InitialTicks(ledPins: seq<u64>, ioPins: seq<u64>)
    ensures TicksBehind(InitialState(ledPins, ioPins))
  {
  }

  // ---------------------------------------------------------------------
  // The keep-alive cadence

  function Repeat<T>(xs: seq<T>, k: nat): seq<T> {
    if k == 0 then [] else xs + Repeat(xs, k - 1)
  }

  /** Ticks with the given button levels, with no drain in between. */
  function Ticks(s: SysState, levels: seq<u8>): SysState
    decreases |levels|
  {
    if levels == [] then s else Ticks(TickStep(s, levels[0]), levels[1..])
  }

  /** `n` ticks advance the tick counter by `n` and queue one keep-alive
      and temperature check for each multiple of 400 the index passes. */
  lemma {:induction false} TickCadence(s: SysState, levels: seq<u8>)
    requires s.index < KEEPALIVE_TICKS
    ensures var r := Ticks(s, levels);
            && r.tick == s.tick + |levels|
            && r.index == (s.index + |levels|) % KEEPALIVE_TICKS
            && r.outputs == s.outputs + Repeat([KeepAliveEvent, CheckTempCpuEvent], (s.index + |levels|) / KEEPALIVE_TICKS)
    decreases |levels|
  {
    var xs := [KeepAliveEvent, CheckTempCpuEvent];
    if levels != [] {
      var n := |levels|;
      var t := TickStep(s, levels[0]);
      TickCadence(t, levels[1..]);
      if s.index + 1 == KEEPALIVE_TICKS {
        assert t.index == 0 && t.outputs == s.outputs + xs;
        assert (s.index + n) / KEEPALIVE_TICKS == 1 + (n - 1) / KEEPALIVE_TICKS;
        assert (s.index + n) % KEEPALIVE_TICKS == (n - 1) % KEEPALIVE_TICKS;
        assert Repeat(xs, 1 + (n - 1) / KEEPALIVE_TICKS) == xs + Repeat(xs, (n - 1) / KEEPALIVE_TICKS);
      } else {
        assert t.index == s.index + 1 && t.outputs == s.outputs;
      }
    }
  }

  // ---------------------------------------------------------------------
  // Actions and what they publish

  /** A relay event switches exactly that relay and publishes one status
      record for it, echoing the request's `control_source` and `reqid`. */
  lemma RelayPublishes(s: SysState, a: GpioLogicOut, env: Env, ctx: Ctx)
    requires a.RelayOnEvent? || a.RelayOffEvent?
    ensures var r := Apply(s, a, env, ctx);
            && r.io == SetRelay(s.io, a.relay, if a.RelayOnEvent? then ON else OFF)
            && |r.published| == |s.published| + 1 && r.published[..|s.published|] == s.published
            && var (topic, mess) := r.published[|s.published|];
            && topic == STATUS_TOPIC
            && Data(mess).Array? && |Data(mess).items| == 1
            && Data(mess).items[0].Index("hash") == String(DeviceHash(ctx.mac, a.relay))
            && StatusOn(Data(mess).items[0]) == Bool(a.RelayOnEvent?)
            && mess.Index("reqid") == a.jsonInit.Index("reqid")
            && mess.Index("control_source") == a.jsonInit.Index("control_source")
  {
    StatusMessageShape(a.jsonInit, [(a.RelayOnEvent?, DeviceHash(ctx.mac, a.relay))]);
    var r := Apply(s, a, env, ctx);
    assert r.published == s.published + [r.published[|s.published|]];
  }

  /** Switching a relay on and then off leaves it off, whatever it was, and
      publishes its two status records in that order. */
  lemma RelayOnThenOff(s: SysState, k: usize, j1: Value, j2: Value, env: Env, ctx: Ctx)
    requires k < |s.io|
    ensures var r := Apply(Apply(s, RelayOnEvent(k, j1), env, ctx), RelayOffEvent(k, j2), env, ctx);
            && r.io == s.io[k := s.io[k].(state := OFF)]
            && r.published == s.published +
                 [(STATUS_TOPIC, StatusMessage(j1, [(true, DeviceHash(ctx.mac, k))])),
                  (STATUS_TOPIC, StatusMessage(j2, [(false, DeviceHash(ctx.mac, k))]))]
  {
    var m := Apply(s, RelayOnEvent(k, j1), env, ctx);
    assert m.io == s.io[k := s.io[k].(state := ON)];
  }

  /** The config answer publishes the sync message, then the status
      message, both describing every relay as it is, under two fresh
      request ids. */
  lemma ConfigPublishes(s: SysState, env: Env, ctx: Ctx)
    ensures var r := Apply(s, ConfigRelayEvent, env, ctx);
            && r.drawn == s.drawn + 2 && r.io == s.io && r.sent == s.sent
            && |r.published| == |s.published| + 2
            && r.published[..|s.published|] == s.published
            && r.published[|s.published|].0 == CONFIG_TOPIC
            && r.published[|s.published| + 1].0 == STATUS_TOPIC
            && var config, st := r.published[|s.published|].1, r.published[|s.published| + 1].1;
            && config.Index("reqid") == String(ctx.reqids(s.drawn + 1))
            && st.Index("reqid") == String(ctx.reqids(s.drawn))
            && |Data(config).items| == |s.io| && |Data(st).items| == |s.io|
            && forall i :: 0 <= i < |s.io| ==>
                 && Data(config).items[i] == ConfigEntry(s.io[i].state == ON, DeviceHash(ctx.mac, i), ctx.mac)
                 && Data(st).items[i] == StatusEntry(s.io[i].state == ON, DeviceHash(ctx.mac, i))
  {
    SyncMessagesShape(RelaySnapshot(s.io), ctx.mac, ctx.reqids(s.drawn), ctx.reqids(s.drawn + 1));
    var r := Apply(s, ConfigRelayEvent, env, ctx);
    assert r.published[..|s.published|] == s.published;
  }

  /** A failed temperature read changes nothing: no fan request, and the
      last reading is kept. */
  lemma FailedTemperatureRead(s: SysState, env: Env, ctx: Ctx)
    requires env.temperature.Err?
    ensures Apply(s, CheckTempCpuEvent, env, ctx) == s
  {
  }

  /** An unlocked blink request takes the LEDs for blinking and reaches the
      driver only when `blink_parse` admits its session; a rejected one
      sends nothing and leaves the LEDs as they were. */
  lemma BlinkAdmission(s: SysState, pin: u64, blink: bool, time: u16, fre: u16, env: Env, ctx: Ctx)
    ensures var r := Apply(s, LedBlinkEvent(pin, blink, time, fre), env, ctx);
            && r.status == Blink
            && (Admit(s.leds, pin, fre).0.Ok? <==> r.sent == s.sent + [LedBlink(pin, blink, time, fre, s.tick)])
            && (Admit(s.leds, pin, fre).0.Err? ==> r.sent == s.sent && r.leds == s.leds && r.fault == s.fault)
  {
  }

  // ---------------------------------------------------------------------
  // The reactor

  class SystemIntergration {
    const logic: OtaLogic
    const gpio: GpioDriver
    const button: ButtonDriver
    var index: nat
    var gpioChannel: seq<GpioOut>
    var buttonChannel: seq<GpioOut>
    var published: seq<(string, Value)>
    var drawn: nat
    var sent: seq<GpioIn>
    var fault: Option<PanicKind>
    const reqids: nat -> string

    function Abstract(): SysState
      reads this, logic, gpio, button
    {
      SysState(logic.outputs, logic.tick, index, gpio.leds, gpio.io, gpio.status,
               gpio.lastCpuTemperature, button.temp, gpioChannel, buttonChannel,
               published, drawn, sent, fault)
    }

    function Context(): Ctx
      reads this, logic
    {
      Ctx(logic.idMac, logic.device, reqids)
    }

    /** `SystemIntergration::new`, with the stream of request ids the JSON
      builder will draw. */
    constructor (device: string, idMac: string, ledPins: seq<u64>, ioPins: seq<u64>,
                 fanPins: seq<u64>, timeBlink: u64, buttonPin: u64, reqids: nat -> string)
      ensures Abstract() == InitialState(ledPins, ioPins)
      ensures Context() == Ctx(idMac, DeviceFromString(device), reqids)
    {
      var dev := NoDevice;
      if device == "Ai" {
        dev := Ai;
      } else {
        dev := Hc;
      }
      logic := new OtaLogic(dev, idMac);
      gpio := new GpioDriver(ledPins, ioPins, fanPins, timeBlink, buttonPin);
      button := new ButtonDriver(buttonPin);
      index := 0;
      gpioChannel, buttonChannel := [], [];
      published, drawn, sent := [], 0, [];
      fault := None;
      this.reqids := reqids;
    }

    /** A blink step request to the driver. */
    method SendBlink(pin: u64, blink: bool, time: u16, fre: u16)
      modifies this, gpio
      ensures Abstract() == BlinkRequest(old(Abstract()), pin, blink, time, fre)
    {
      sent := sent + [LedBlink(pin, blink, time, fre, logic.tick)];
      var r := gpio.LedBlink(pin, blink, time, fre, logic.tick);
      match r {
        case Panicked(k) => fault := Some(k);
        case Done(next) =>
          if next.Some? {
            gpioChannel := gpioChannel + [next.value];
          }
      }
    }

    /** The relay branches of the drain loop. */
    method SendRelayOn(relay: usize, jsonInit: Value, env: Env)
      modifies this, gpio
      ensures Abstract() == Apply(old(Abstract()), RelayOnEvent(relay, jsonInit), env, Context())
    {
      sent := sent + [RelayOn(relay)];
      gpio.RelayOn(relay);
      PublishRelayStatus(relay, jsonInit, true);
    }

    method SendRelayOff(relay: usize, jsonInit: Value, env: Env)
      modifies this, gpio
      ensures Abstract() == Apply(old(Abstract()), RelayOffEvent(relay, jsonInit), env, Context())
    {
      sent := sent + [RelayOff(relay)];
      gpio.RelayOff(relay);
      PublishRelayStatus(relay, jsonInit, false);
    }

    /** The status record of one relay, echoing the request's envelope. */
    method PublishRelayStatus(relay: usize, jsonInit: Value, on: bool)
      modifies this`published
      ensures published == old(published) + [(STATUS_TOPIC, StatusMessage(jsonInit, [(on, DeviceHash(logic.idMac, relay))]))]
    {
      var pin := [(on, DeviceHash(logic.idMac, relay))];
      var mess, _ := StatusConvert(jsonInit, pin);
      published := published + [(STATUS_TOPIC, mess)];
    }

    /** The config branch: snapshot the relays, publish config then status. */
    method SendConfig(env: Env)
      modifies this
      ensures Abstract() == Apply(old(Abstract()), ConfigRelayEvent, env, Context())
    {
      ghost var before := Abstract();
      var status := gpio.GetValueRelay();
      var reqidStatus := reqids(drawn);
      var reqidConfig := reqids(drawn + 1);
      var messSync, messSt := SyncConvert(status, logic.idMac, reqidStatus, reqidConfig);
      ghost var spec := SyncMessages(RelaySnapshot(before.io), logic.idMac, reqidStatus, reqidConfig);
      assert (messSync, messSt) == spec;
      drawn := drawn + 2;
      published := published + [(CONFIG_TOPIC, messSync), (STATUS_TOPIC, messSt)];
      assert Abstract() == before.(published := before.published + [(CONFIG_TOPIC, spec.0), (STATUS_TOPIC, spec.1)],
                                   drawn := before.drawn + 2);
    }

    /** The temperature branch. */
    method CheckTemp(env: Env)
      modifies this, gpio
      ensures Abstract() == Apply(old(Abstract()), CheckTempCpuEvent, env, Context())
    {
      match env.temperature {
        case Err(_) =>
        case Ok(t) =>
          var level := gpio.ControlFan(AsI32(t));
          match level {
            case Panicked(k) => fault := Some(k);
            case Done(l) =>
              if l.Some? {
                sent := sent + [FanRequest(l.value)];
              }
          }
      }
    }

    /** The restore branch: give the LEDs back, then ask the driver. */
    method SendReturnState(env: Env)
      modifies this, gpio
      ensures Abstract() == Apply(old(Abstract()), GpioLogicOut.ReturnState, env, Context())
    {
      gpio.status := LedCtrl;
      sent := sent + [GpioIn.ReturnState];
      var r := gpio.ReturnState(Levels(env, |gpio.leds|));
      match r {
        case Panicked(k) => fault := Some(k);
        case Done((signal, _)) =>
          if signal.Some? {
            gpioChannel := gpioChannel + [signal.value];
          }
      }
    }

    method SendKeepAlive(env: Env)
      modifies this
      ensures Abstract() == Apply(old(Abstract()), KeepAliveEvent, env, Context())
    {
      ghost var before := Abstract();
      var reqid := reqids(drawn);
      drawn := drawn + 1;
      var (mess, _) := KeepAlive(reqid);
      published := published + [(KEEPALIVE_TOPIC, mess)];
      assert Abstract() == before.(published := before.published + [(KEEPALIVE_TOPIC, mess)], drawn := before.drawn + 1);
    }

    method SendLedOn(pin: u64, env: Env)
      modifies this, gpio
      ensures Abstract() == Apply(old(Abstract()), LedOnEvent(pin), env, Context())
    {
      sent := sent + [LedOn(pin)];
      gpio.LedOn(pin);
    }

    method SendLedOff(pin: u64, env: Env)
      modifies this, gpio
      ensures Abstract() == Apply(old(Abstract()), LedOffEvent(pin), env, Context())
    {
      sent := sent + [LedOff(pin)];
      gpio.LedOff(pin);
    }

    /** The first step of a blink session: take the LEDs, then start the
      session only if `blink_parse` admits it. */
    method StartBlink(pin: u64, blink: bool, time: u16, fre: u16, env: Env)
      modifies this, gpio
      ensures Abstract() == Apply(old(Abstract()), LedBlinkEvent(pin, blink, time, fre), env, Context())
    {
      gpio.status := Blink;
      var check := gpio.BlinkParse(pin, fre);
      if check.Ok? {
        SendBlink(pin, blink, time, fre);
      }
    }

    method ContinueBlink(pin: u64, blink: bool, time: u16, fre: u16, env: Env)
      modifies this, gpio
      ensures Abstract() == Apply(old(Abstract()), LedBlinkContinueEvent(pin, blink, time, fre), env, Context())
    {
      SendBlink(pin, blink, time, fre);
    }

    /** The gesture branch: the button takes the LEDs. */
    method SendButtonBlink(env: Env)
      modifies this, gpio
      ensures Abstract() == Apply(old(Abstract()), ButtonBlinkEvent, env, Context())
    {
      gpio.status := ButtonPre;
      sent := sent + [ButonBlink];
    }

    /** One action of the drain loop, past `WAIT_UNLOCK`. */
    method ApplyAction(a: GpioLogicOut, env: Env)
      modifies this, gpio
      ensures Abstract() == Apply(old(Abstract()), a, env, Context())
    {
      match a {
        case NoneAction =>
        case StopEvent =>
        case KeepAliveEvent => SendKeepAlive(env);
        case LedOnEvent(pin) => SendLedOn(pin, env);
        case LedOffEvent(pin) => SendLedOff(pin, env);
        case LedBlinkContinueEvent(pin, blink, time, fre) => ContinueBlink(pin, blink, time, fre, env);
        case LedBlinkEvent(pin, blink, time, fre) => StartBlink(pin, blink, time, fre, env);
        case ButtonBlinkEvent => SendButtonBlink(env);
        case ReturnState => SendReturnState(env);
        case RelayOnEvent(relay, jsonInit) => SendRelayOn(relay, jsonInit, env);
        case RelayOffEvent(relay, jsonInit) => SendRelayOff(relay, jsonInit, env);
        case ConfigRelayEvent => SendConfig(env);
        case CheckTempCpuEvent => CheckTemp(env);
      }
    }

    /** The `while let` loop of `recv`. */
    method DrainQueue(env: Env)
      requires fault.None?
      modifies this, logic, gpio
      ensures Abstract() == Drain(old(Abstract()), env, Context())
    {
      ghost var target := Drain(Abstract(), env, Context());
      while true
        invariant fault.None?
        invariant Drain(Abstract(), env, Context()) == target
        decreases |logic.outputs|
      {
        var out := logic.PopAction();
        if out.None? {
          return;
        }
        var a := out.value;
        if Deferred(a) && gpio.status == ButtonPre {
          logic.outputs := logic.outputs + [a];
          return;
        }
        ApplyAction(a, env);
        if fault.Some? {
          return;
        }
      }
    }

    /** The tick branch of the `select!`. */
    method OnTick(level: u8)
      modifies this, logic, button
      ensures Abstract() == TickStep(old(Abstract()), level)
    {
      var ev := button.ButtonHandle(level);
      if ev.Some? {
        buttonChannel := buttonChannel + [ev.value];
      }
      logic.tick := logic.tick + 1;
      index := index + 1;
      if index >= KEEPALIVE_TICKS {
        index := 0;
        logic.outputs := logic.outputs + [KeepAliveEvent];
        logic.outputs := logic.outputs + [CheckTempCpuEvent];
      }
    }

    /** The broker branch: a panic of the translator ends the process. */
    method OnMessage(m: Result<TransportOut>)
      modifies this, logic
      ensures Abstract() == Receive(old(Abstract()), Received(m), Context())
    {
      var r := logic.OnEvent(Transport(m));
      if r.Panicked? {
        fault := Some(r.kind);
      }
    }

    /** The feedback branches; feedback is never parsed, so it cannot panic. */
    method OnGpio()
      requires gpioChannel != []
      modifies this, logic
      ensures Abstract() == Receive(old(Abstract()), GpioReady, Context())
    {
      var g := gpioChannel[0];
      gpioChannel := gpioChannel[1..];
      var _ := logic.OnEvent(GpioFeedback(Ok(g)));
    }

    method OnButton()
      requires buttonChannel != []
      modifies this, logic
      ensures Abstract() == Receive(old(Abstract()), ButtonReady, Context())
    {
      var g := buttonChannel[0];
      buttonChannel := buttonChannel[1..];
      var _ := logic.OnEvent(GpioFeedback(Ok(g)));
    }

    /** `recv`: one branch of the `select!`, then the drain loop. */
    method Recv(wake: Wake, env: Env)
      requires fault.None? && Ready(Abstract(), wake)
      modifies this, logic, gpio, button
      ensures Abstract() == Step(old(Abstract()), wake, env, Context())
    {
      match wake {
        case TickFired(level) => OnTick(level);
        case Received(m) => OnMessage(m);
        case GpioReady => OnGpio();
        case ButtonReady => OnButton();
      }
      if fault.Some? {
        return;
      }
      DrainQueue(env);
    }
  }
}
