# io-service control logic in Dafny

A model of the control core of the io-service appliance daemon, with
proofs. The daemon joins three parts:
- an MQTT broker that carries app requests;
- a GPIO driver for status LEDs, relays, a fan and a push button;
- the CPU temperature file.

The model covers its in-memory logic:

- `gpio.dfy` (module `Gpio`): the driver's bookkeeping.
  - The LED bank holds `(pin, state, lastTick, toggleCount, sessionToken)` per LED.
  - It covers the self-rescheduling blink step, `blink_parse` session admission, the relay bank and the fan hysteresis of `control_fan`.
  - It covers the release selection of `ReturnState` and the button edge detector.
- `logic.dfy` (module `Logic`): the protocol translator `OtaLogic`.
  - Its action queue is first in, first out.
  - Its decoders: the `io-<mac>-<k>` hash parser, the Ai event-code table, the Hc `code/10 - 2` / `code % 10` decoding, the relay handler, the LED handler that uses the first `event_code`, and the dispatch of `on_event`.
- `system.dfy` (module `Integration`): one pass of the reactor `SystemIntergration::recv`.
  - The pass runs one `select!` branch: a tick, a broker message, a feedback event or a button event.
  - Then the drain loop runs, with the `WAIT_UNLOCK` / `LOCK` / `UNLOCK` arbitration over `StatusGpio`.
  - Everything published goes into an abstract log of `(topic, message)` pairs.
- `json.dfy` and `json_value.dfy` (modules `Json`, `JsonValue`): the three envelopes of `JsonDriver::convert` built as abstract JSON values, and the request-id generator.
- `main.dfy` (module `Cli`): `cup_comma`, the comma-list parser for pin options.
- `common.dfy` and `text.dfy`: integer widths, errors, `str::split`, `{}` formatting and `str::parse` for unsigned integers.

How the model represents the source:

- **Arithmetic panics.** The arithmetic follows a build with overflow checks. Each place the source can panic is an explicit `Panicked(kind)` outcome:
  - the u64 tick subtraction of a blink step;
  - the u8 toggle increment;
  - the usize decrement of the selection;
  - the i32 temperature difference;
  - the `unwrap` of a non-numeric event code.
- **Stateful code.** The drivers, the translator and the reactor are classes whose methods update their fields. Each reactor method is proved against a function on an abstract state `SysState`: `Apply` for one action, `Drain` for the loop, `Step` for a whole pass.
- **Outside inputs.**
  - What the pins read during a pass (each LED's level and the temperature) is an environment `Env`.
  - The request ids the JSON builder draws come from a stream fixed at construction.
  - The button level read at a tick is an argument of that tick.

## Model

| member | source | states |
|---|---|---|
| Common.AsI32 | packages/io-service/src/system_intergration.rs:201 | `u32 as i32` keeps the bits: the result is congruent modulo 2^32 and converts back to the input |
| Text.Split | packages/io-service/src/main.rs:43 | `str::split` on one character gives one more piece than there are separators, none of them containing it |
| Text.JoinSplit | packages/io-service/src/main.rs:43 | splitting loses nothing: joining the pieces gives the input back |
| Text.SplitJoin | packages/io-service/src/logic.rs:113 | joining separator-free pieces and splitting again gives the pieces back |
| Text.ParseUnsigned | packages/io-service/src/main.rs:47 | `str::parse` into an unsigned type succeeds iff what follows an optional leading '+' is a non-empty run of decimal digits whose value is below the type's bound, and the value parsed is that of the digits |
| Text.ParseDecimal | packages/io-service/src/json.rs:116 | parsing what `{}` prints gives the number back, for every value of the type |
| Json.GetReqId | packages/io-service/src/json.rs:17-25 | the request id is 12 characters, each drawn from the alphanumeric alphabet |
| Json.EnvelopeShape | packages/io-service/src/json.rs:29-52 | the envelope carries its cmd, "source": "io", the reqid, the control source when given (Null otherwise), the object type and the data array |
| Json.StatusEntryShape | packages/io-service/src/json.rs:61-66 | a status record carries the hash and `states.OnOff.on` equal to the flag |
| Json.ConfigEntryShape | packages/io-service/src/json.rs:118-131 | a switch record carries the hash, `traits[0].is_main` equal to the flag, type SWITCH, and mac and macdev equal to the mac |
| Json.StatusMessageShape | packages/io-service/src/json.rs:28-70 | the status envelope echoes `control_source` and `reqid` of the request and holds one record per pair, in input order |
| Json.StatusConvert | packages/io-service/src/json.rs:28-70 | the loop builds exactly the status envelope and returns "" as second result |
| Json.SyncMessagesShape | packages/io-service/src/json.rs:71-149 | the sync/devices_local and status/devices envelopes both have one entry per relay; entry i carries hash `io-<mac>-<i>` and relay i's flag; both carry the fresh request ids |
| Json.SyncConvert | packages/io-service/src/json.rs:71-149 | the loop builds exactly the pair of sync and status envelopes, the status id drawn first |
| Json.KeepAliveShape | packages/io-service/src/json.rs:150-167 | the keep-alive is a status envelope of type "keepalive" with empty data, a fresh request id, no control source and "" as second result |
| Gpio.SetLedState | packages/io-service/src/gpio.rs:172-192 | LedOn/LedOff change only the state of LED `pin`; every other LED is unchanged and an out-of-range pin changes nothing |
| Gpio.GpioDriver.LedOn | packages/io-service/src/gpio.rs:172-181 | the bank after `LedOn` is the bank with LED `pin` set to ON (0) |
| Gpio.GpioDriver.LedOff | packages/io-service/src/gpio.rs:183-192 | the bank after `LedOff` is the bank with LED `pin` set to OFF (1) |
| Gpio.Admit | packages/io-service/src/gpio.rs:374-386 | admission succeeds iff the pin is in range and its token differs from `fre`, and then the token becomes `fre`; a rejection is RepeatErr and leaves the bank unchanged |
| Gpio.RepeatRejected | packages/io-service/src/gpio.rs:374-386 | two admissions in a row with the same `fre` reject the second |
| Gpio.GpioDriver.BlinkParse | packages/io-service/src/gpio.rs:374-386 | the result and the new bank are those of `Admit` |
| Gpio.BlinkStep | packages/io-service/src/gpio.rs:195-229 | the cases of one blink step: a stale token changes nothing; an LED forced out of Blink resets its count and stops; a step panics only on the tick underflow (a tick before the last toggle) or the toggle overflow (a toggle at the count 255), and always on each; a toggle is counted exactly when `fre / 100` ticks have passed; a finite session stops at `time as u8` toggles with the count reset; every other surviving step schedules a continuation with the same fields |
| Gpio.BlinkOn | packages/io-service/src/gpio.rs:194-233 | a step touches only LED `pin`; an out-of-range pin changes nothing and schedules nothing |
| Gpio.GpioDriver.LedBlink | packages/io-service/src/gpio.rs:194-233 | the new bank and the returned continuation are those of `BlinkOn`, or the step's panic |
| Gpio.FiniteSession | packages/io-service/src/gpio.rs:207-220 | a finite session of N = `time as u8` toggles (at least one), with every step late enough, toggles exactly N times and stops in Blink with the count reset to 0 |
| Gpio.SessionEnds | packages/io-service/src/gpio.rs:195-229 | a finite session on any in-order schedule never panics; once it stops it has done exactly the toggles still due and reset the count to 0, and while a step is pending it has done fewer |
| Gpio.InfiniteSessionOverflows | packages/io-service/src/gpio.rs:207-209 | an infinite session whose every step toggles panics on the u8 increment within 256 steps of a count of 0 |
| Gpio.OffMidSessionStalls | packages/io-service/src/gpio.rs:194-205 | after an LED is switched off mid-session, a new session is admitted but its first step resets the count and stops, and the same session is then rejected |
| Gpio.InfiniteSessionCounts | packages/io-service/src/gpio.rs:195-229 | one step earlier the same session has done every toggle without a panic, stands at the count 255 and still has a step pending, so the panic comes from the 256th toggle |
| Gpio.FirstOff | packages/io-service/src/gpio.rs:278-280 | the index found is the first LED whose level reads OFF; none is found iff none reads OFF |
| Gpio.Selection | packages/io-service/src/gpio.rs:276-292 | the selection panics iff the first LED reads OFF; it sends nothing iff no LED reads OFF; otherwise it sends the signal for the first LED that does |
| Gpio.GpioDriver.ReturnState | packages/io-service/src/gpio.rs:276-305 | the scan loop gives the selection decision, and the restore loop writes each LED's own state, skipping those in Blink |
| Gpio.SetRelay | packages/io-service/src/gpio.rs:306-326 | a relay request changes only the state of relay `pin`; an out-of-range pin changes nothing |
| Gpio.GpioDriver.RelayOn | packages/io-service/src/gpio.rs:306-315 | the relays after `RelayOn` are those with relay `pin` ON |
| Gpio.GpioDriver.RelayOff | packages/io-service/src/gpio.rs:317-326 | the relays after `RelayOff` are those with relay `pin` OFF |
| Gpio.FanDecision | packages/io-service/src/gpio.rs:401-438 | the i32 difference panics iff it overflows; no level when the reading equals the last one; otherwise the hysteresis table level |
| Gpio.FanMonotone | packages/io-service/src/gpio.rs:404-436 | for a fixed direction, the level never falls as the temperature rises |
| Gpio.RisingLevels | packages/io-service/src/gpio.rs:401-438 | while readings only rise, every reading emits a level and the levels never fall |
| Gpio.FallingLevels | packages/io-service/src/gpio.rs:401-438 | while readings only fall, every reading emits a level and the levels never rise |
| Gpio.FanScenario | packages/io-service/src/gpio.rs:401-438 | readings 45, 50, 50 from 0 emit Lv1, Lv2, then nothing |
| Gpio.FanRun | packages/io-service/src/gpio.rs:401-438 | successive `control_fan` calls emit one level per reading, or panic with the difference overflow |
| Gpio.FanRunLevels | packages/io-service/src/gpio.rs:401-438 | successive `control_fan` calls, each remembering its reading, emit exactly `FanLevels` iff every successive difference fits in an i32, and panic otherwise |
| Gpio.GpioDriver.ControlFan | packages/io-service/src/gpio.rs:401-438 | the method returns `FanDecision` and records the reading as the last one (kept as it was only on the panic) |
| Gpio.GpioDriver.GetValueRelay | packages/io-service/src/gpio.rs:440-452 | one flag per relay, in order, true iff the relay is ON |
| Gpio.InitialRelaysOff | packages/io-service/src/gpio.rs:140-144 | freshly configured relays all report off |
| Gpio.GpioDriver.constructor | packages/io-service/src/gpio.rs:128-164 | every LED starts OFF with tick, count and token 0, every relay OFF, status LedCtrl, last temperature 0 |
| Gpio.ButtonEdge | packages/io-service/src/gpio.rs:93-106 | an event iff the level read differs from the stored one: Pressed for 0, Released otherwise |
| Gpio.SteadyPollsSilent | packages/io-service/src/gpio.rs:96-106 | polls that read the stored level emit nothing |
| Gpio.PollsAlternate | packages/io-service/src/gpio.rs:96-106 | on a two-level line, events alternate between pressed and released, starting with the one away from the stored level |
| Gpio.ButtonDriver.constructor | packages/io-service/src/gpio.rs:79-87 | the stored level starts at 1 |
| Gpio.ButtonDriver.ButtonHandle | packages/io-service/src/gpio.rs:89-109 | the event is the edge for the stored and read levels, and the stored level becomes the read one |
| Logic.ParseDataString | packages/io-service/src/logic.rs:111-118 | the device id is the second '-' field ("" without one), and the index is the third field parsed as a usize, 0 when there is none or it does not parse |
| Logic.ParseDeviceHash | packages/io-service/src/logic.rs:111-118 | for a mac without '-', parsing `io-<mac>-<k>` gives back `(mac, k)` |
| Logic.ParseLedAi | packages/io-service/src/logic.rs:120-202 | exactly the 14 codes of the Ai table map to their LED action; every other code gives None |
| Logic.DecodeHc | packages/io-service/src/logic.rs:233-251 | on, off and blink iff the code is at least 20 and its last digit is 3, 2 or 1; Stop otherwise; the blink is finite with time 20 and fre 1; the LED is `code / 10 - 2` |
| Logic.DecodeHcCode | packages/io-service/src/logic.rs:233-251 | every LED of an Hc device is reachable: the code built for a pin and a digit decodes to that pin's action |
| Logic.CodeExamples | packages/io-service/src/logic.rs:120-251 | example codes: Hc 23 is on for LED 0; Ai 23 is the infinite blink of LED 0, 33 is on for LED 0, 7311 is the finite blink of LED 1 with time 0; 15 is Stop on Hc and None on Ai |
| Logic.ArrayField | packages/io-service/src/logic.rs:225-227 | `get(key).and_then(as_array)` gives the array when the field is one, the empty sequence otherwise |
| Logic.EventCodesAppend | packages/io-service/src/logic.rs:225-229 | the event codes of concatenated object lists concatenate |
| Logic.LedDecision | packages/io-service/src/logic.rs:223-263 | None without an event code; with one, an unwrap panic iff the first code does not parse as a u32, and otherwise exactly the first code decoded by the Hc or the Ai table for the device kind |
| Logic.LaterObjectsIgnored | packages/io-service/src/logic.rs:225-257 | objects after one that carries an event code do not change the decision |
| Logic.FirstCode | packages/io-service/src/logic.rs:228-229 | the inner scan finds the first `event_code` string of a data array, or none iff there is none |
| Logic.LedHandle | packages/io-service/src/logic.rs:223-263 | the scan with early return computes `LedDecision` |
| Logic.RelayHandle | packages/io-service/src/logic.rs:204-220 | None iff the hash names another device; On iff it names this device and `execution.params.on` is boolean true; Off iff it names this device and the flag is anything else; the action carries the parsed index and the request |
| Logic.SetRequestFields | packages/io-service/src/logic.rs:206-208 | the hash and flag read from a set request are those it was built from |
| Logic.RelayRequest | packages/io-service/src/logic.rs:204-218 | a request naming relay k of this device switches relay k on for `true` and off for anything else |
| Logic.ForeignRequest | packages/io-service/src/logic.rs:209-219 | a request naming another device gives None |
| Logic.SyncHandle | packages/io-service/src/logic.rs:265-270 | "get" gives ConfigRelay iff the device is Ai, None otherwise |
| Logic.FeedbackAction | packages/io-service/src/logic.rs:318-347 | Continue maps to a continuation with its fields kept, Stop to StopEvent, ButtonPressed to ButtonBlinkEvent, ButtonReleased to ReturnState; the four LedXReleased signals map to nothing |
| Logic.Translate | packages/io-service/src/logic.rs:272-361 | at most one action; a "set" with `control_source` gives the relay action of `RelayHandle`, a "set" without one the LED action of `LedDecision` or its panic; "get" appends exactly one action, other commands and errors nothing |
| Logic.OtaLogic.constructor | packages/io-service/src/logic.rs:99-107 | the queue holds exactly one None action and the tick is 0 |
| Logic.OtaLogic.OnEvent | packages/io-service/src/logic.rs:272-361 | the queue grows by exactly the translated actions, or is unchanged on the panic |
| Logic.OtaLogic.PopAction | packages/io-service/src/logic.rs:362-364 | pop takes the front of the queue; an empty queue gives none |
| Logic.QueueFifo | packages/io-service/src/logic.rs:362-364 | actions pushed behind a queue come out after it, in order |
| Integration.DeviceFromString | packages/io-service/src/system_intergration.rs:61-67 | "Ai" maps to Ai and every other string to Hc; no device is never produced |
| Integration.BlinkRequest | packages/io-service/src/system_intergration.rs:126-129 | a blink step request is sent stamped with the current tick |
| Integration.Apply | packages/io-service/src/system_intergration.rs:113-214 | one action does not change the queue or the counters. Only LED actions touch the LEDs. Only ButtonBlink takes the lock; only ReturnState and LedBlink release it. None and Stop have no effect. A panic comes only from a blink step, the selection or the temperature difference |
| Integration.DrainEnds | packages/io-service/src/system_intergration.rs:113-214 | a pass without a panic ends with an empty queue, or with the lock held and an LED action at the back |
| Integration.DrainEmpties | packages/io-service/src/system_intergration.rs:113-214 | unlocked, with no gesture queued, a pass without a panic empties the queue |
| Integration.LockedLedsUntouched | packages/io-service/src/system_intergration.rs:11-21 | while locked and no restore is queued, a pass changes no LED and keeps the lock |
| Integration.DeferredRequeued | packages/io-service/src/system_intergration.rs:11-21 | an LED action that meets the lock moves from the front to the back of the queue, unchanged, and nothing else happens |
| Integration.BlinkOnTicks | packages/io-service/src/gpio.rs:207-208 | a step on LEDs whose last toggle is not in the future cannot underflow and keeps that property |
| Integration.ApplyTicks | packages/io-service/src/system_intergration.rs:126-141 | every action keeps each LED's last toggle at or before the tick counter |
| Integration.DrainTicks | packages/io-service/src/system_intergration.rs:113-214 | a drain pass never panics on the tick subtraction |
| Integration.StepTicks | packages/io-service/src/system_intergration.rs:85-216 | no reactor pass ever panics on the tick subtraction |
| Integration.InitialTicks | packages/io-service/src/gpio.rs:136 | the initial state meets that invariant |
| Integration.TickCadence | packages/io-service/src/system_intergration.rs:87-97 | n ticks advance the tick by n, keep the index modulo 400, and queue one keep-alive then one temperature check per multiple of 400 passed |
| Integration.RelayPublishes | packages/io-service/src/system_intergration.rs:152-174 | a relay action switches that relay and publishes one status message to `component/io/status` with the single record `(on, io-<mac>-<relay>)`, echoing the request's reqid and control source |
| Integration.RelayOnThenOff | packages/io-service/src/system_intergration.rs:152-174 | on then off leaves the relay off and publishes both records in order |
| Integration.ConfigPublishes | packages/io-service/src/system_intergration.rs:176-187 | config publishes the sync message to `component/io/config`, then the status message, both from the relay snapshot, with two fresh request ids |
| Integration.FailedTemperatureRead | packages/io-service/src/system_intergration.rs:197-208 | a failed temperature read changes nothing |
| Integration.BlinkAdmission | packages/io-service/src/system_intergration.rs:131-141 | an unlocked blink request sets Blink and reaches the driver iff `blink_parse` admits it; a rejection sends nothing and changes no LED |
| Integration.SystemIntergration.constructor | packages/io-service/src/system_intergration.rs:60-83 | the reactor starts in the initial state, with the device kind from the device string |
| Integration.SystemIntergration.SendBlink | packages/io-service/src/system_intergration.rs:126-129 | the blink step reaches the driver and its continuation goes to the feedback channel |
| Integration.SystemIntergration.SendRelayOn | packages/io-service/src/system_intergration.rs:152-162 | the relay-on branch has the effect `Apply` gives it |
| Integration.SystemIntergration.SendRelayOff | packages/io-service/src/system_intergration.rs:164-174 | the relay-off branch has the effect `Apply` gives it |
| Integration.SystemIntergration.PublishRelayStatus | packages/io-service/src/system_intergration.rs:155-161 | one status message is appended to the log |
| Integration.SystemIntergration.SendConfig | packages/io-service/src/system_intergration.rs:176-187 | the config branch has the effect `Apply` gives it |
| Integration.SystemIntergration.CheckTemp | packages/io-service/src/system_intergration.rs:197-208 | the temperature branch has the effect `Apply` gives it |
| Integration.SystemIntergration.SendReturnState | packages/io-service/src/system_intergration.rs:146-150 | the restore branch unlocks, then sends the selection signal or panics, as `Apply` says |
| Integration.SystemIntergration.SendKeepAlive | packages/io-service/src/system_intergration.rs:189-195 | the keep-alive branch draws one request id and publishes to `component/keepalive/io-manager` |
| Integration.SystemIntergration.SendLedOn | packages/io-service/src/system_intergration.rs:115-119 | the on branch has the effect `Apply` gives it |
| Integration.SystemIntergration.SendLedOff | packages/io-service/src/system_intergration.rs:120-124 | the off branch has the effect `Apply` gives it |
| Integration.SystemIntergration.StartBlink | packages/io-service/src/system_intergration.rs:131-141 | the blink branch sets Blink, admits, then steps, as `Apply` says |
| Integration.SystemIntergration.ContinueBlink | packages/io-service/src/system_intergration.rs:126-129 | the continuation branch has the effect `Apply` gives it |
| Integration.SystemIntergration.SendButtonBlink | packages/io-service/src/system_intergration.rs:142-145 | the gesture branch takes the lock and asks for the gesture |
| Integration.SystemIntergration.ApplyAction | packages/io-service/src/system_intergration.rs:114-213 | every action's branch has the effect `Apply` gives it |
| Integration.SystemIntergration.DrainQueue | packages/io-service/src/system_intergration.rs:113-214 | the `while let` loop with its early returns computes `Drain` |
| Integration.SystemIntergration.OnTick | packages/io-service/src/system_intergration.rs:87-97 | the tick branch polls the button, advances both counters and queues the keep-alive and temperature check at 400 |
| Integration.SystemIntergration.OnMessage | packages/io-service/src/system_intergration.rs:99-101 | the broker branch feeds the message to the translator |
| Integration.SystemIntergration.OnGpio | packages/io-service/src/system_intergration.rs:103-105 | the feedback branch feeds the oldest feedback event to the translator |
| Integration.SystemIntergration.OnButton | packages/io-service/src/system_intergration.rs:107-109 | the button branch feeds the oldest button event to the translator |
| Integration.SystemIntergration.Recv | packages/io-service/src/system_intergration.rs:85-216 | one pass runs the branch that fired, then the drain loop, and computes `Step` |
| Cli.Parsed | packages/io-service/src/main.rs:46-50 | no more numbers than fields |
| Cli.CupComma | packages/io-service/src/main.rs:39-52 | the loop keeps exactly the fields that parse as u64, in order; at most one more than the number of commas |
| Cli.ParsedAppend | packages/io-service/src/main.rs:46-50 | the numbers of two runs of fields concatenate |
| Cli.FieldAt | packages/io-service/src/main.rs:46-50 | each field sits at its own position in the result: kept with its value iff it parses, dropped otherwise |
| Cli.ParsedSound | packages/io-service/src/main.rs:46-50 | every number returned is the value of some field |
| Cli.ParsedAll | packages/io-service/src/main.rs:46-50 | fields that all parse are all kept, in order |
| Cli.FormatThenParse | packages/io-service/src/main.rs:39-52 | numbers printed with `{}` and joined by commas are recovered exactly |
| Cli.DefaultOption | packages/io-service/src/main.rs:25-26 | the default option "0" gives [0] |
| Cli.SpacedField | packages/io-service/src/main.rs:47-49 | "10, 11" gives [10]: a field with a space does not parse and is dropped |

## Left out

- MQTT transport, D-Bus and the timer utility: network and clock I/O. The broker's self-echo filter goes with them. A received message or transport error arrives as the `Received` wake-up. Publishing appends `(topic, message)` to a log, and the `unwrap` of a failed send is not modelled.
- Gpio.GpioDriver.LedBlink: on a panic the bank is left as it was, since the process ends there.
- Walking gesture: the `ButonBlink` task (gpio.rs:234-274) sleeps and reads and writes pins live. The model records only that the request reached the driver. The `ButtonPressed` it may send back when the button is still held is not generated.
- `check_temp` reads a file. Its result (a u32 or one of the error kinds) is the `temperature` of the environment.
- Pin I/O errors, all treated as succeeding. For the button, a failed export or direction call (gpio.rs:90-91) returns an `Err` that the tick branch discards (system_intergration.rs:88): that tick's poll is skipped, which `OnTick` allows by a level equal to the stored one. The button read (gpio.rs:93), the LED reads of the selection scan (gpio.rs:279) and the restore write `led.set_value(*state)` (gpio.rs:301) end the process with an `unwrap` panic when they fail; the model never produces those panics. The export, direction, read and write unwraps of the gesture (gpio.rs:243-266) would end only its spawned task, which is not modelled.
- Integration.SystemIntergration.SendReturnState: the restore writes that `GpioDriver.ReturnState` computes are not recorded in `SysState`. They are the driver's own pin writes, not a request or a message.
- Fan: the fan mode pin writes are commented out in the source. A fan level appears only as the `FanModeLv*` request sent to the driver.
- Timing and scheduling:
  - `select!` fairness: the caller chooses which branch fires;
  - the 100 ms deferral sleep;
  - the `fre` ms delay of a blink continuation, which is appended to the feedback channel at once;
  - the 100 ms interval.
- Channel capacity (5) and backpressure: the channels are unbounded sequences.
- JSON is modelled as abstract values. Text serialisation by serde and `mess.into()` are not modelled, and messages in the log are values, not strings.
- Request ids: the random generator is an unconstrained stream of request ids (`Ctx.reqids`), numbered by a draw counter. `Json.GetReqId` states the shape of one id built from twelve drawn indices, but the reactor's stream is not required to consist of such ids.
- CLI parsing with clap, logging, and the wiring in `main` (main.rs:54-94).
- Integers: the tick counter `logic.tick` is unbounded. Its u64 wrap-around would need 2^64 ticks.
- `relay as u64` is the identity on the 64-bit target the model assumes.
- A release build wraps on overflow instead of panicking; that build is not modelled.
- Integration.DrainEmpties: requires, beyond "not locked", that no gesture is queued. An unlocked pass that meets a ButtonBlink action takes the lock, and an LED action after it is then deferred.

## Edge cases of the code

- When no LED reads OFF at the end of a gesture, `ReturnState` sends no signal at all, not `Stop` (gpio.rs:276-292).
- When the first LED reads OFF, `index -= 1` on a usize underflows: a panic under overflow checks, not a `Stop` (gpio.rs:280-281).
- The Ai event-code table has 14 codes (logic.rs:40-55).
- An LED switched off in the middle of a blink session keeps its toggle count. A new session on it with another `fre` is admitted, but its first step finds the LED out of Blink, resets the count and schedules nothing (gpio.rs:199-205), so the LED does not blink; sending the same session again is RepeatErr (`Gpio.OffMidSessionStalls`).
- A finite session's limit is `time as u8` (`time % 256`). A limit of 0 stops after the first toggle.
