/** The protocol translator `OtaLogic`: it turns broker messages and GPIO
    feedback into actions on a FIFO queue. The decoders are pure; the
    queue is a field that `OnEvent` appends to and `PopAction` takes from. */
module Logic {
  import opened Common
  import opened Text
  import opened JsonValue
  import Json
  import Gpio

  datatype DeviceOs = Ai | Hc | NoDevice

  /** The state digits of the event codes (not the driver's pin levels). */
  const EV_ON: nat := 3
  const EV_OFF: nat := 2
  const EV_BLINK: nat := 1

  const U32_BOUND: nat := 0x1_0000_0000

  /** The actions of the queue (`GpioLogicOut`). */
  datatype GpioLogicOut =
    | NoneAction
    | KeepAliveEvent
    | LedOnEvent(ledPin: u64)
    | LedOffEvent(ledPin: u64)
    | LedBlinkEvent(ledPin: u64, blink: bool, time: u16, fre: u16)
    | LedBlinkContinueEvent(ledPin: u64, blink: bool, time: u16, fre: u16)
    | RelayOnEvent(relay: usize, jsonInit: Value)
    | RelayOffEvent(relay: usize, jsonInit: Value)
    | ConfigRelayEvent
    | StopEvent
    | ButtonBlinkEvent
    | ReturnState
    | CheckTempCpuEvent

  /** What the broker side delivers: one parsed message. */
  datatype TransportOut = ResponseMqttEvent(json: Value)

  /** The two kinds of input of `on_event`. */
  datatype GpioLogicIn =
    | Transport(message: Result<TransportOut>)
    | GpioFeedback(feedback: Result<Gpio.GpioOut>)

  // ---------------------------------------------------------------------
  // Device hashes

  /** `parse_data_string`: the second '-' field (or "") and the third
      field as a usize (0 when it is missing or does not parse). */
  function ParseDataString(data: string): (r: (string, usize))
    ensures '-' !in r.0
    ensures |Split(data, '-')| > 1 ==> r.0 == Split(data, '-')[1]
    ensures Count(data, '-') == 0 ==> r.0 == ""
    ensures Count(data, '-') < 2 ==> r.1 == 0
    ensures |Split(data, '-')| > 2 ==> r.1 == ParseUnsigned(Split(data, '-')[2], USIZE_BOUND).GetOr(0)
  {
    var parts := Split(data, '-');
    var deviceId := if |parts| > 1 then parts[1] else "";
    var index := if |parts| > 2 then ParseUnsigned(parts[2], USIZE_BOUND).GetOr(0) else 0;
    (deviceId, index)
  }

  /** The hash the service publishes for relay `k` parses back to its mac
      and index, provided the mac itself holds no '-'. */
  lemma ParseDeviceHash(mac: string, k: usize)
    requires '-' !in mac
    ensures ParseDataString(Json.DeviceHash(mac, k)) == (mac, k)
  {
    var digits := DecimalString(k);
    assert '-' !in digits by {
      forall i | 0 <= i < |digits| ensures digits[i] != '-' {
        assert IsDigit(digits[i]);
      }
    }
    assert Json.DeviceHash(mac, k) == "io" + ['-'] + (mac + ['-'] + digits);
    SplitAfter("io", '-', mac + ['-'] + digits);
    SplitAfter(mac, '-', digits);
    SplitNone(digits, '-');
    assert Split(Json.DeviceHash(mac, k), '-') == ["io", mac, digits];
    ParseDecimal(k, USIZE_BOUND);
  }

  // ---------------------------------------------------------------------
  // LED event codes

  /** The fourteen event codes of an Ai device and the action of each. */
  const AI_TABLE: map<nat, GpioLogicOut> := map[
    22 := LedOffEvent(0),                    // internet unavailable
    23 := LedBlinkEvent(0, true, 0, 1000),   // internet available
    32 := LedBlinkEvent(0, true, 0, 2000),   // server disconnected
    33 := LedOnEvent(0),                     // server connected
    3311 := LedBlinkEvent(0, false, 0, 1000),  // server message
    72 := LedOffEvent(1),                    // AI disconnected
    73 := LedOnEvent(1),                     // AI connected
    7311 := LedBlinkEvent(1, false, 0, 1000),  // AI detected
    42 := LedOffEvent(2),                    // Zigbee disconnected
    43 := LedOnEvent(2),                     // Zigbee connected
    4401 := LedBlinkEvent(2, true, 0, 1000),   // Zigbee join network
    52 := LedOffEvent(3),                    // Bluetooth disconnected
    53 := LedOnEvent(3),                     // Bluetooth connected
    5401 := LedBlinkEvent(3, true, 0, 1000)    // Bluetooth join network
  ]

  /** `parse_led_ai`: each code group drives one LED; the last digit picks
      off, on, or a blink whose kind depends on the group. */
  function ParseLedAi(code: u32): (r: GpioLogicOut)
    ensures code in AI_TABLE ==> r == AI_TABLE[code]
    ensures code !in AI_TABLE ==> r == NoneAction
  {
    var state := code % 10;
    if code == 22 || code == 23 then
      if state == EV_OFF then LedOffEvent(0) else LedBlinkEvent(0, true, 0, 1000)
    else if code == 32 || code == 33 || code == 3311 then
      if state == EV_OFF then LedBlinkEvent(0, true, 0, 2000)
      else if state == EV_ON then LedOnEvent(0)
      else LedBlinkEvent(0, false, 0, 1000)
    else if code == 72 || code == 73 || code == 7311 then
      if state == EV_OFF then LedOffEvent(1)
      else if state == EV_ON then LedOnEvent(1)
      else LedBlinkEvent(1, false, 0, 1000)
    else if code == 42 || code == 43 || code == 4401 then
      if state == EV_OFF then LedOffEvent(2)
      else if state == EV_ON then LedOnEvent(2)
      else LedBlinkEvent(2, true, 0, 1000)
    else if code == 52 || code == 53 || code == 5401 then
      if state == EV_OFF then LedOffEvent(3)
      else if state == EV_ON then LedOnEvent(3)
      else LedBlinkEvent(3, true, 0, 1000)
    else NoneAction
  }

  /** The Hc decoding of `led_handle`: the code is "<pin + 2><digit>"; a
      code below 20 stops, and so does a digit other than 1, 2 or 3. */
  function DecodeHc(code: u32): (r: GpioLogicOut)
    ensures r.LedOnEvent? <==> code >= 20 && code % 10 == EV_ON
    ensures r.LedOffEvent? <==> code >= 20 && code % 10 == EV_OFF
    ensures r.LedBlinkEvent? <==> code >= 20 && code % 10 == EV_BLINK
    ensures r.StopEvent? <==> code < 20 || code % 10 == 0 || code % 10 > 3
    ensures r.LedBlinkEvent? ==> !r.blink && r.time == 20 && r.fre == 1
    ensures r.LedOnEvent? || r.LedOffEvent? || r.LedBlinkEvent? ==>
              code == (r.ledPin + 2) * 10 + code % 10
  {
    var pin := code / 10;
    var state := code % 10;
    if pin < 2 then StopEvent
    else if state == EV_ON then LedOnEvent(pin - 2)
    else if state == EV_OFF then LedOffEvent(pin - 2)
    else if state == EV_BLINK then LedBlinkEvent(pin - 2, false, 20, 1)
    else StopEvent
  }

  /** The code an Hc device sends to drive LED `pin` with digit `digit`. */
  function HcCode(pin: nat, digit: nat): nat {
    (pin + 2) * 10 + digit
  }

  /** Every LED of an Hc device is reachable: the code for LED `pin` and
      digit 3, 2 or 1 decodes to on, off or the fixed blink of that LED. */
  lemma {:induction false} DecodeHcCode(pin: nat, digit: nat)
    requires 1 <= digit <= 3 && HcCode(pin, digit) < U32_BOUND
    ensures var r := DecodeHc(HcCode(pin, digit));
            r == (if digit == EV_ON then LedOnEvent(pin)
                  else if digit == EV_OFF then LedOffEvent(pin)
                  else LedBlinkEvent(pin, false, 20, 1))
  {
    var code := HcCode(pin, digit);
    assert code / 10 == pin + 2 && code % 10 == digit;
  }

  /** The payload of an event message with code 23 on an Hc device drives
      LED 0 on; on an Ai device it starts the infinite blink of LED 0. */
  lemma CodeExamples()
    ensures DecodeHc(23) == LedOnEvent(0)
    ensures ParseLedAi(23) == LedBlinkEvent(0, true, 0, 1000)
    ensures ParseLedAi(33) == LedOnEvent(0)
    ensures ParseLedAi(7311) == LedBlinkEvent(1, false, 0, 1000)
    ensures DecodeHc(15) == StopEvent && ParseLedAi(15) == NoneAction
  {
  }

  // ---------------------------------------------------------------------
  // The LED handler: the first event code of the message

  /** `v.get(key).and_then(Value::as_array)`, with the empty array for "none". */
  function ArrayField(v: Value, key: string): (r: seq<Value>)
    ensures v.Get(key).Some? && v.Get(key).value.Array? ==> r == v.Get(key).value.items
    ensures !(v.Get(key).Some? && v.Get(key).value.Array?) ==> r == []
  {
    match v.Get(key)
    case Some(Array(items)) => items
    case _ => []
  }

  /** `d.get("event_code").and_then(Value::as_str)`. */
  function CodeOf(d: Value): Option<string> {
    match d.Get("event_code")
    case Some(String(s)) => Some(s)
    case _ => None
  }

  /** The event codes of a `data` array, in order. */
  function DataCodes(ds: seq<Value>): seq<string>
    decreases |ds|
  {
    if ds == [] then []
    else (if CodeOf(ds[0]).Some? then [CodeOf(ds[0]).value] else []) + DataCodes(ds[1..])
  }

  /** The event codes of all `data` arrays of `objects`, in scan order. */
  function EventCodes(objs: seq<Value>): seq<string>
    decreases |objs|
  {
    if objs == [] then [] else DataCodes(ArrayField(objs[0], "data")) + EventCodes(objs[1..])
  }

  lemma {:induction false} EventCodesAppend(a: seq<Value>, b: seq<Value>)
    ensures EventCodes(a + b) == EventCodes(a) + EventCodes(b)
    decreases |a|
  {
    if a == [] {
      assert a + b == b;
    } else {
      assert (a + b)[0] == a[0];
      assert (a + b)[1..] == a[1..] + b;
      EventCodesAppend(a[1..], b);
    }
  }

  /** The decision of `led_handle`: nothing without an event code; the
      `unwrap` panic when the first one is not a u32; otherwise the first
      code decoded for the device (every device but Hc uses the Ai table). */
  function LedDecision(json: Value, device: DeviceOs): (r: Outcome<GpioLogicOut>)
    ensures EventCodes(ArrayField(json, "objects")) == [] ==> r == Done(NoneAction)
    ensures r.Panicked? ==> r.kind == EventCodeNotNumeric
    ensures var codes := EventCodes(ArrayField(json, "objects"));
            codes != [] ==> (r.Panicked? <==> ParseUnsigned(codes[0], U32_BOUND).None?)
    ensures var codes := EventCodes(ArrayField(json, "objects"));
            codes != [] && ParseUnsigned(codes[0], U32_BOUND).Some? ==>
              var c := ParseUnsigned(codes[0], U32_BOUND).value;
              r == Done(if device == Hc then DecodeHc(c) else ParseLedAi(c))
    ensures r.Done? && r.value != NoneAction ==>
              var codes := EventCodes(ArrayField(json, "objects"));
              codes != [] && ParseUnsigned(codes[0], U32_BOUND).Some? &&
              var c := ParseUnsigned(codes[0], U32_BOUND).value;
              r.value == (if device == Hc then DecodeHc(c) else ParseLedAi(c))
  {
    var codes := EventCodes(ArrayField(json, "objects"));
    if codes == [] then Done(NoneAction)
    else
      match ParseUnsigned(codes[0], U32_BOUND)
      case None => Panicked(EventCodeNotNumeric)
      case Some(c) => Done(if device == Hc then DecodeHc(c) else ParseLedAi(c))
  }

  /** Only the first event code counts: objects after one that carries a
      code do not change the decision. */
  lemma LaterObjectsIgnored(fields: map<string, Value>, objs: seq<Value>, more: seq<Value>, device: DeviceOs)
    requires EventCodes(objs) != []
    ensures LedDecision(Object(fields["objects" := Array(objs + more)]), device) ==
            LedDecision(Object(fields["objects" := Array(objs)]), device)
  {
    EventCodesAppend(objs, more);
  }

  /** The inner scan of `led_handle`: the first `event_code` of a data array. */
  method FirstCode(data: seq<Value>) returns (code: Option<string>)
    ensures code.None? <==> DataCodes(data) == []
    ensures code.Some? ==> code.value == DataCodes(data)[0]
  {
    var j := 0;
    while j < |data|
      invariant 0 <= j <= |data|
      invariant DataCodes(data[j..]) == DataCodes(data)
    {
      code := CodeOf(data[j]);
      if code.Some? {
        return;
      }
      assert data[j..][1..] == data[j + 1..];
      j := j + 1;
    }
    return None;
  }

  /** `led_handle`: scan the objects and their data arrays for the first
      `event_code` string and decode it. */
  method LedHandle(json: Value, device: DeviceOs) returns (r: Outcome<GpioLogicOut>)
    ensures r == LedDecision(json, device)
  {
    var objects := ArrayField(json, "objects");
    var i := 0;
    while i < |objects|
      invariant 0 <= i <= |objects|
      invariant EventCodes(objects[i..]) == EventCodes(objects)
    {
      var code := FirstCode(ArrayField(objects[i], "data"));
      if code.Some? {
        var parsed := ParseUnsigned(code.value, U32_BOUND);
        if parsed.None? {
          return Panicked(EventCodeNotNumeric);
        }
        if device == Hc {
          return Done(DecodeHc(parsed.value));
        } else {
          return Done(ParseLedAi(parsed.value));
        }
      }
      assert objects[i..][1..] == objects[i + 1..];
      i := i + 1;
    }
    return Done(NoneAction);
  }

  // ---------------------------------------------------------------------
  // The relay handler

  /** `objects[0].data[0]` as a string, "" when it is not one. */
  function RelayData(json: Value): string {
    json.Index("objects").At(0).Index("data").At(0).AsStr().GetOr("")
  }

  /** `objects[0].execution.params.on` as a bool, false when it is not one. */
  function RelayFlag(json: Value): bool {
    json.Index("objects").At(0).Index("execution").Index("params").Index("on").AsBool().GetOr(false)
  }

  /** `relay_handle`: a request for this device switches the relay named
      by the hash on exactly when `on` is boolean true, carrying the
      request; a request for another device does nothing. */
  function RelayHandle(json: Value, idMac: string): (r: GpioLogicOut)
    ensures r == NoneAction <==> ParseDataString(RelayData(json)).0 != idMac
    ensures r.RelayOnEvent? <==>
              ParseDataString(RelayData(json)).0 == idMac &&
              json.Index("objects").At(0).Index("execution").Index("params").Index("on") == Bool(true)
    ensures r.RelayOffEvent? <==>
              ParseDataString(RelayData(json)).0 == idMac &&
              json.Index("objects").At(0).Index("execution").Index("params").Index("on") != Bool(true)
    ensures r.RelayOnEvent? || r.RelayOffEvent? ==>
              r.relay == ParseDataString(RelayData(json)).1 && r.jsonInit == json
  {
    var (deviceId, relay) := ParseDataString(RelayData(json));
    if idMac == deviceId then
      if RelayFlag(json) then RelayOnEvent(relay, json) else RelayOffEvent(relay, json)
    else NoneAction
  }

  /** A "set" request for relay `k` of the device `mac`, as an app sends it. */
  function SetRequest(mac: string, k: nat, on: Value, controlSource: Value, reqid: Value): Value {
    var execution := Object(map["params" := Object(map["on" := on])]);
    var first := Object(map["data" := Array([String(Json.DeviceHash(mac, k))]), "execution" := execution]);
    Object(map["cmd" := String("set"), "control_source" := controlSource,
               "objects" := Array([first]), "reqid" := reqid])
  }

  /** The hash and the flag a "set" request carries are the ones it was
      built from. */
  lemma SetRequestFields(mac: string, k: nat, on: Value, cs: Value, reqid: Value)
    ensures RelayData(SetRequest(mac, k, on, cs, reqid)) == Json.DeviceHash(mac, k)
    ensures RelayFlag(SetRequest(mac, k, on, cs, reqid)) == (on == Bool(true))
  {
    var req := SetRequest(mac, k, on, cs, reqid);
    var first := req.Index("objects").At(0);
    assert first.Index("data") == Array([String(Json.DeviceHash(mac, k))]);
    assert first.Index("execution").Index("params").Index("on") == on;
  }

  /** A request naming relay `k` of this device switches exactly that
      relay: on for `true`, off for `false` or anything not boolean. */
  lemma RelayRequest(mac: string, k: usize, on: Value, cs: Value, reqid: Value)
    requires '-' !in mac
    ensures var req := SetRequest(mac, k, on, cs, reqid);
            RelayHandle(req, mac) ==
              (if on == Bool(true) then RelayOnEvent(k, req) else RelayOffEvent(k, req))
  {
    ParseDeviceHash(mac, k);
    SetRequestFields(mac, k, on, cs, reqid);
  }

  /** A request naming a relay of another device is ignored. */
  lemma ForeignRequest(mac: string, other: string, k: usize, on: Value, cs: Value, reqid: Value)
    requires '-' !in other && other != mac
    ensures RelayHandle(SetRequest(other, k, on, cs, reqid), mac) == NoneAction
  {
    ParseDeviceHash(other, k);
    SetRequestFields(other, k, on, cs, reqid);
  }

  /** `sync_handle`: only an Ai device answers a "get" with its config. */
  function SyncHandle(device: DeviceOs): (r: GpioLogicOut)
    ensures r == ConfigRelayEvent <==> device == Ai
    ensures r != ConfigRelayEvent ==> r == NoneAction
  {
    if device == Ai then ConfigRelayEvent else NoneAction
  }

  // ---------------------------------------------------------------------
  // Translation of one input

  /** `parsed_json["cmd"].as_str().unwrap_or("default_cmd")`. */
  function Cmd(json: Value): string {
    json.Index("cmd").AsStr().GetOr("default_cmd")
  }

  /** The action the GPIO feedback `g` queues, if any. */
  function FeedbackAction(g: Gpio.GpioOut): (r: Option<GpioLogicOut>)
    ensures r.None? <==> g.LedTwoReleased? || g.LedThreeReleased? || g.LedFourReleased? || g.LedFiveReleased?
    ensures g.LedBlinkContinue? ==>
              r == Some(LedBlinkContinueEvent(g.ledPin, g.blink, g.time, g.fre))
    ensures g.Stop? ==> r == Some(StopEvent)
    ensures g.ButtonPressed? ==> r == Some(ButtonBlinkEvent)
    ensures g.ButtonReleased? ==> r == Some(ReturnState)
  {
    match g
    case LedBlinkContinue(pin, blink, time, fre) => Some(LedBlinkContinueEvent(pin, blink, time, fre))
    case Stop => Some(StopEvent)
    case ButtonPressed => Some(ButtonBlinkEvent)
    case ButtonReleased => Some(ReturnState)
    case _ => None
  }

  /** What `on_event` appends to the queue for `event`, or the panic of
      `led_handle`: at most one action; "set" and "get" messages always
      append one, everything else from the broker side nothing. */
  function Translate(event: GpioLogicIn, device: DeviceOs, idMac: string): (r: Outcome<seq<GpioLogicOut>>)
    ensures r.Done? ==> |r.value| <= 1
    ensures r.Panicked? ==>
              && event.Transport? && event.message.Ok?
              && Cmd(event.message.value.json) == "set"
              && event.message.value.json.Get("control_source").None?
    ensures event.Transport? && event.message.Err? ==> r == Done([])
    ensures event.Transport? && event.message.Ok? && r.Done? ==>
              var json := event.message.value.json;
              (|r.value| == 1 <==> Cmd(json) == "set" || Cmd(json) == "get")
    ensures event.Transport? && event.message.Ok? && Cmd(event.message.value.json) == "set" ==>
              var json := event.message.value.json;
              && (json.Get("control_source").Some? ==> r == Done([RelayHandle(json, idMac)]))
              && (json.Get("control_source").None? && LedDecision(json, device).Done? ==>
                    r == Done([LedDecision(json, device).value]))
              && (json.Get("control_source").None? && LedDecision(json, device).Panicked? ==>
                    r == Panicked(LedDecision(json, device).kind))
    ensures event.Transport? && event.message.Ok? && Cmd(event.message.value.json) == "get" ==>
              r == Done([SyncHandle(device)])
    ensures event.GpioFeedback? && event.feedback.Ok? ==>
              var a := FeedbackAction(event.feedback.value);
              r == Done(if a.Some? then [a.value] else [])
    ensures event.GpioFeedback? && event.feedback.Err? ==> r == Done([])
  {
    match event
    case Transport(Ok(ResponseMqttEvent(json))) =>
      var cmd := Cmd(json);
      if cmd == "set" then
        if json.Get("control_source").Some? then Done([RelayHandle(json, idMac)])
        else
          match LedDecision(json, device)
          case Done(a) => Done([a])
          case Panicked(k) => Panicked(k)
      else if cmd == "get" then Done([SyncHandle(device)])
      else Done([])
    case Transport(Err(_)) => Done([])
    case GpioFeedback(Ok(g)) =>
      var a := FeedbackAction(g);
      Done(if a.Some? then [a.value] else [])
    case GpioFeedback(Err(_)) => Done([])
  }

  /** The translator: the action queue, the device kind, the mac and the
      tick counter the reactor advances. */
  class OtaLogic {
    var outputs: seq<GpioLogicOut>
    const device: DeviceOs
    const idMac: string
    var tick: nat

    /** `OtaLogic::new`: the queue starts with one `None` action. */
    constructor (device: DeviceOs, mac: string)
      ensures outputs == [NoneAction] && tick == 0
      ensures this.device == device && idMac == mac
    {
      outputs := [NoneAction];
      this.device := device;
      idMac := mac;
      tick := 0;
    }

    /** `on_event`: append what `event` translates to. A panic of the LED
      handler ends the process; the queue is then left as it was. */
    method OnEvent(event: GpioLogicIn) returns (r: Outcome<()>)
      modifies this`outputs
      ensures match Translate(event, device, idMac)
              case Done(acts) => r == Done(()) && outputs == old(outputs) + acts
              case Panicked(k) => r == Panicked(k) && outputs == old(outputs)
    {
      r := Done(());
      match event {
        case Transport(Ok(ResponseMqttEvent(json))) =>
          var cmd := Cmd(json);
          if cmd == "set" {
            if json.Get("control_source").Some? {
              var res := RelayHandle(json, idMac);
              outputs := outputs + [res];
            } else {
              var res := LedHandle(json, device);
              if res.Panicked? {
                return Panicked(res.kind);
              }
              outputs := outputs + [res.value];
            }
          } else if cmd == "get" {
            var res := SyncHandle(device);
            outputs := outputs + [res];
          }
        case Transport(Err(_)) =>
        case GpioFeedback(Ok(g)) =>
          var a := FeedbackAction(g);
          if a.Some? {
            outputs := outputs + [a.value];
          }
        case GpioFeedback(Err(_)) =>
      }
    }

    /** `pop_action`: take the oldest action, if any. */
    method PopAction() returns (a: Option<GpioLogicOut>)
      modifies this`outputs
      ensures old(outputs) == [] ==> a == None && outputs == []
      ensures old(outputs) != [] ==> a == Some(old(outputs)[0]) && outputs == old(outputs)[1..]
    {
      if outputs == [] {
        return None;
      }
      a := Some(outputs[0]);
      outputs := outputs[1..];
    }
  }

  /** `n` successive `PopAction` calls on the queue `q`: the actions
      handed back, in order, and the queue left behind. */
  function Pops(q: seq<GpioLogicOut>, n: nat): (r: (seq<GpioLogicOut>, seq<GpioLogicOut>))
    requires n <= |q|
    decreases n
  {
    if n == 0 then ([], q) else
      var (taken, rest) := Pops(q[1..], n - 1);
      ([q[0]] + taken, rest)
  }

  /** The queue is first in, first out: pushing `acts` behind `q` and
      popping |q| times hands back `q` and leaves exactly `acts`. */
  lemma {:induction false} QueueFifo(q: seq<GpioLogicOut>, acts: seq<GpioLogicOut>)
    ensures Pops(q + acts, |q|) == (q, acts)
    decreases |q|
  {
    if q == [] {
      assert q + acts == acts;
    } else {
      assert (q + acts)[1..] == q[1..] + acts;
      assert (q + acts)[0] == q[0];
      QueueFifo(q[1..], acts);
      assert [q[0]] + q[1..] == q;
    }
  }
}
