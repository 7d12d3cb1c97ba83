/** The JSON values both programs read (`serde_json::Value`) and the accessors they use.
    Parsing and printing JSON are library codecs: where the source calls them, the model
    takes them as function parameters. */
module Json {
  import opened Base

  /** A JSON number is either an integer that serde_json stores exactly (it fits `u64` or
      `i64`) or some other number, kept as its text. */
  datatype Value =
    | Null
    | Bool(b: bool)
    | Int(i: int)
    | Float(repr: string)
    | Str(s: string)
    | Arr(items: seq<Value>)
    | Obj(fields: map<string, Value>)
  {
    /** `Value::get(key)`: present only for an object that has the key. */
    function Get(key: string): Option<Value> {
      if Obj? && key in fields then Some(fields[key]) else None
    }

    /** `Value::get(index)` on an array */
    function At(index: nat): Option<Value> {
      if Arr? && index < |items| then Some(items[index]) else None
    }

    /** `value[key]`: the field, or `Null` when absent or when this is not an object. */
    function Field(key: string): Value {
      Get(key).GetOr(Null)
    }

    /** `Value::as_str` */
    function AsStr(): Option<string> {
      if Str? then Some(s) else None
    }

    /** `Value::as_u64`: an integer in [0, 2^64) */
    function AsU64(): Option<nat> {
      if Int? && 0 <= i < 0x1_0000_0000_0000_0000 then Some(i) else None
    }

    /** `Value::as_i64`: an integer in [-2^63, 2^63) */
    function AsI64(): Option<int> {
      if Int? && -0x8000_0000_0000_0000 <= i < 0x8000_0000_0000_0000 then Some(i) else None
    }
  }

  /** `.and_then(|v| v.as_str())` */
  function StrOf(v: Option<Value>): Option<string> {
    if v.Some? then v.value.AsStr() else None
  }

  /** `.get(key).and_then(|v| v.as_str())`, the idiom both programs use for string fields. */
  function StrField(v: Value, key: string): Option<string> {
    StrOf(v.Get(key))
  }
}
