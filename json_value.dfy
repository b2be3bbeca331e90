/** An abstract JSON value with the `serde_json` accessors the service
    uses. Text serialisation and parsing are not modelled. */
module JsonValue {
  import opened Common

  datatype Value =
    | Null
    | Bool(b: bool)
    | Number(n: int)
    | String(s: string)
    | Array(items: seq<Value>)
    | Object(fields: map<string, Value>)
  {
    /** `v.get(key)`: the field when `v` is an object that has it. */
    function Get(key: string): (r: Option<Value>)
      ensures r.Some? <==> Object? && key in fields
    {
      if Object? && key in fields then Some(fields[key]) else None
    }

    /** `v[key]`: the field, or `Null` when there is none. */
    function Index(key: string): (r: Value)
      ensures Get(key).Some? ==> r == Get(key).value
      ensures Get(key).None? ==> r == Null
    {
      if Object? && key in fields then fields[key] else Null
    }

    /** `v[i]`: the element, or `Null` when there is none. */
    function At(i: nat): (r: Value)
      ensures Array? && i < |items| ==> r == items[i]
      ensures !(Array? && i < |items|) ==> r == Null
    {
      if Array? && i < |items| then items[i] else Null
    }

    function AsStr(): (r: Option<string>)
      ensures r.Some? <==> String?
    {
      if String? then Some(s) else None
    }

    function AsBool(): (r: Option<bool>)
      ensures r.Some? <==> Bool?
    {
      if Bool? then Some(b) else None
    }

    function AsArray(): (r: Option<seq<Value>>)
      ensures r.Some? <==> Array?
    {
      if Array? then Some(items) else None
    }
  }
}
