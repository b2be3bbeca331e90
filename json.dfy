/** The outbound envelopes built by `JsonDriver::convert`, as JSON values.
    The random request id is a parameter; its generator is modelled by the
    characters it draws. */
module Json {
  import opened Common
  import opened Text
  import opened JsonValue

  /** The characters of `rand::distributions::Alphanumeric`. */
  const ALPHANUMERIC: string := "ABCDEFGHIJKLMNOPQRSTUVWXYZabcdefghijklmnopqrstuvwxyz0123456789"

  predicate IsAlphanumeric(ch: char) {
    ch in ALPHANUMERIC
  }

  /** What `get_reqid` returns: twelve alphanumeric characters. */
  predicate IsReqId(s: string) {
    |s| == 12 && forall i :: 0 <= i < |s| ==> IsAlphanumeric(s[i])
  }

  /** `get_reqid`, given the twelve indices drawn from the distribution. */
  function GetReqId(draws: seq<nat>): (r: string)
    requires |draws| == 12 && forall i :: 0 <= i < |draws| ==> draws[i] < |ALPHANUMERIC|
    ensures IsReqId(r)
    ensures forall i :: 0 <= i < 12 ==> r[i] == ALPHANUMERIC[draws[i]]
  {
    seq(12, i requires 0 <= i < 12 => ALPHANUMERIC[draws[i]])
  }

  /** The hash of relay `index` of device `mac`: "io-<mac>-<index>". */
  function DeviceHash(mac: string, index: nat): string {
    "io-" + mac + "-" + DecimalString(index)
  }

  /** The common envelope: `cmd`, one object of the given `type` whose
      `data` array is `data`, `reqid`, `"source": "io"`, and a
      `control_source` member when there is one. */
  function Envelope(cmd: string, controlSource: Option<Value>, kind: string,
                    data: seq<Value>, reqid: Value): Value
  {
    var first := Object(map["bridge_key" := String("io"), "data" := Array(data), "type" := String(kind)]);
    var fields := map["cmd" := String(cmd), "objects" := Array([first]),
                      "reqid" := reqid, "source" := String("io")];
    Object(if controlSource.Some? then fields["control_source" := controlSource.value] else fields)
  }

  lemma EnvelopeShape(cmd: string, controlSource: Option<Value>, kind: string,
                      data: seq<Value>, reqid: Value)
    ensures var e := Envelope(cmd, controlSource, kind, data, reqid);
            && e.Index("cmd") == String(cmd) && e.Index("source") == String("io")
            && e.Index("reqid") == reqid
            && e.Index("control_source") == (if controlSource.Some? then controlSource.value else Null)
            && Kind(e) == String(kind) && Data(e) == Array(data)
  {
  }

  /** The `data` array of the first object of an envelope. */
  function Data(v: Value): Value {
    v.Index("objects").At(0).Index("data")
  }

  /** The `type` of the first object of an envelope. */
  function Kind(v: Value): Value {
    v.Index("objects").At(0).Index("type")
  }

  /** One status record: `{"hash": hash, "states": {"OnOff": {"on": on}}}`. */
  function StatusEntry(on: bool, hash: string): Value {
    Object(map["hash" := String(hash),
               "states" := Object(map["OnOff" := Object(map["on" := Bool(on)])])])
  }

  /** The `on` flag a status record carries. */
  function StatusOn(entry: Value): Value {
    entry.Index("states").Index("OnOff").Index("on")
  }

  lemma StatusEntryShape(on: bool, hash: string)
    ensures StatusEntry(on, hash).Index("hash") == String(hash)
    ensures StatusOn(StatusEntry(on, hash)) == Bool(on)
  {
  }

  /** One switch record of the sync envelope. */
  function ConfigEntry(on: bool, hash: string, mac: string): Value {
    Object(map["bridge_key" := String("io"), "hash" := String(hash), "isDefault" := Bool(true),
               "mac" := String(mac), "macdev" := String(mac),
               "traits" := Array([Object(map["is_main" := Bool(on), "name" := String("OnOff")])]),
               "type" := String("SWITCH")])
  }

  lemma ConfigEntryShape(on: bool, hash: string, mac: string)
    ensures var e := ConfigEntry(on, hash, mac);
            && e.Index("hash") == String(hash)
            && e.Index("traits").At(0).Index("is_main") == Bool(on)
            && e.Index("type") == String("SWITCH")
            && e.Index("mac") == String(mac) && e.Index("macdev") == String(mac)
  {
  }

  /** The status envelope of `StatusConvert`. */
  function StatusMessage(jsonInit: Value, pin: seq<(bool, string)>): Value {
    var data := seq(|pin|, i requires 0 <= i < |pin| => StatusEntry(pin[i].0, pin[i].1));
    Envelope("status", Some(jsonInit.Index("control_source")), "devices", data, jsonInit.Index("reqid"))
  }

  /** The status envelope echoes `control_source` and `reqid` and holds
      one record per pair, in order. */
  lemma StatusMessageShape(jsonInit: Value, pin: seq<(bool, string)>)
    ensures var r := StatusMessage(jsonInit, pin);
            && r.Index("cmd") == String("status") && r.Index("source") == String("io")
            && r.Index("control_source") == jsonInit.Index("control_source")
            && r.Index("reqid") == jsonInit.Index("reqid")
            && Kind(r) == String("devices")
            && Data(r).Array? && |Data(r).items| == |pin|
            && forall i :: 0 <= i < |pin| ==>
                 Data(r).items[i].Index("hash") == String(pin[i].1) &&
                 StatusOn(Data(r).items[i]) == Bool(pin[i].0)
  {
    var data := seq(|pin|, i requires 0 <= i < |pin| => StatusEntry(pin[i].0, pin[i].1));
    EnvelopeShape("status", Some(jsonInit.Index("control_source")), "devices", data, jsonInit.Index("reqid"));
    forall i | 0 <= i < |pin|
      ensures data[i].Index("hash") == String(pin[i].1) && StatusOn(data[i]) == Bool(pin[i].0)
    {
      StatusEntryShape(pin[i].0, pin[i].1);
    }
  }

  /** `convert(StatusConvert{json_init, pin})`: one data entry per pair, in
      order, echoing `control_source` and `reqid` of `json_init`. */
  method StatusConvert(jsonInit: Value, pin: seq<(bool, string)>) returns (mess: Value, second: string)
    ensures mess == StatusMessage(jsonInit, pin)
    ensures second == ""
  {
    var data: seq<Value> := [];
    for k := 0 to |pin|
      invariant |data| == k
      invariant forall i :: 0 <= i < k ==> data[i] == StatusEntry(pin[i].0, pin[i].1)
    {
      var (status, hash) := pin[k];
      data := data + [StatusEntry(status, hash)];
    }
    assert data == seq(|pin|, i requires 0 <= i < |pin| => StatusEntry(pin[i].0, pin[i].1));
    mess := Envelope("status", Some(jsonInit.Index("control_source")), "devices",
                     data, jsonInit.Index("reqid"));
    second := "";
  }

  /** The (sync, status) envelopes of `SyncConvert`. */
  function SyncMessages(status: seq<bool>, macId: string, reqidStatus: string,
                        reqidConfig: string): (Value, Value)
  {
    var cfg := seq(|status|, i requires 0 <= i < |status| => ConfigEntry(status[i], DeviceHash(macId, i), macId));
    var st := seq(|status|, i requires 0 <= i < |status| => StatusEntry(status[i], DeviceHash(macId, i)));
    (Envelope("sync", None, "devices_local", cfg, String(reqidConfig)),
     Envelope("status", None, "devices", st, String(reqidStatus)))
  }

  /** Relay `i` becomes switch "io-<mac>-<i>" of the sync envelope and
      the status record of the same hash; both envelopes carry the fresh
      request ids. */
  lemma SyncMessagesShape(status: seq<bool>, macId: string, reqidStatus: string, reqidConfig: string)
    ensures var r := SyncMessages(status, macId, reqidStatus, reqidConfig);
            && r.0.Index("cmd") == String("sync") && Kind(r.0) == String("devices_local")
            && r.1.Index("cmd") == String("status") && Kind(r.1) == String("devices")
            && r.0.Index("reqid") == String(reqidConfig) && r.1.Index("reqid") == String(reqidStatus)
            && Data(r.0).Array? && |Data(r.0).items| == |status|
            && Data(r.1).Array? && |Data(r.1).items| == |status|
            && forall i :: 0 <= i < |status| ==>
                 && Data(r.0).items[i] == ConfigEntry(status[i], DeviceHash(macId, i), macId)
                 && Data(r.1).items[i] == StatusEntry(status[i], DeviceHash(macId, i))
  {
    var cfg := seq(|status|, i requires 0 <= i < |status| => ConfigEntry(status[i], DeviceHash(macId, i), macId));
    var st := seq(|status|, i requires 0 <= i < |status| => StatusEntry(status[i], DeviceHash(macId, i)));
    EnvelopeShape("sync", None, "devices_local", cfg, String(reqidConfig));
    EnvelopeShape("status", None, "devices", st, String(reqidStatus));
  }

  /** `convert(SyncConvert{status, mac_id})`: relay `i` becomes switch
      "io-<mac>-<i>" in the sync envelope and a status record in the status
      envelope. `reqidStatus` is drawn first, then `reqidConfig`. */
  method SyncConvert(status: seq<bool>, macId: string, reqidStatus: string, reqidConfig: string)
    returns (config: Value, st: Value)
    ensures (config, st) == SyncMessages(status, macId, reqidStatus, reqidConfig)
  {
    var dataCf: seq<Value> := [];
    var dataSt: seq<Value> := [];
    for index := 0 to |status|
      invariant |dataCf| == index && |dataSt| == index
      invariant forall i :: 0 <= i < index ==>
                  dataCf[i] == ConfigEntry(status[i], DeviceHash(macId, i), macId) &&
                  dataSt[i] == StatusEntry(status[i], DeviceHash(macId, i))
    {
      var hash := DeviceHash(macId, index);
      dataCf := dataCf + [ConfigEntry(status[index], hash, macId)];
      dataSt := dataSt + [StatusEntry(status[index], hash)];
    }
    assert dataCf == seq(|status|, i requires 0 <= i < |status| => ConfigEntry(status[i], DeviceHash(macId, i), macId));
    assert dataSt == seq(|status|, i requires 0 <= i < |status| => StatusEntry(status[i], DeviceHash(macId, i)));
    st := Envelope("status", None, "devices", dataSt, String(reqidStatus));
    config := Envelope("sync", None, "devices_local", dataCf, String(reqidConfig));
  }

  /** `convert(KeepAlive)`: the keep-alive envelope and an empty string. */
  function KeepAlive(reqid: string): (Value, string) {
    (Envelope("status", None, "keepalive", [], String(reqid)), "")
  }

  /** The keep-alive is a status envelope of type "keepalive" with no data
      and a fresh request id. */
  lemma KeepAliveShape(reqid: string)
    ensures var r := KeepAlive(reqid);
            && r.0.Index("cmd") == String("status") && r.0.Index("source") == String("io")
            && Kind(r.0) == String("keepalive") && Data(r.0) == Array([])
            && r.0.Index("reqid") == String(reqid) && r.0.Index("control_source") == Null
            && r.1 == ""
  {
    EnvelopeShape("status", None, "keepalive", [], String(reqid));
  }
}
