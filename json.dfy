/**
 * JSON values as `encoding/json` hands them to the core. Turning text into a value is left to
 * a decoder passed in as a parameter; what is written out here is how the core reads fields
 * of a decoded value, and how Go binds a value to a struct with string and `*int` fields.
 */
module Json {
  import opened Wrappers

  /** Integer literals are `JInt`; literals with a fraction or an exponent are `JReal`. */
  datatype JsonValue =
    | JNull
    | JBool(b: bool)
    | JInt(i: int)
    | JReal(r: real)
    | JStr(s: string)
    | JArr(items: seq<JsonValue>)
    | JObj(fields: map<string, JsonValue>)

  /** `json.Unmarshal` of text into `interface{}`: a value, or the error text of a syntax error. */
  type Decoder = string -> Result<JsonValue, string>

  /** `json.Marshal` of a value to text. */
  type Encoder = JsonValue -> string

  /** Go's `int` is 64 bits wide here. */
  const MinInt64: int := -0x8000_0000_0000_0000
  const MaxInt64: int := 0x7FFF_FFFF_FFFF_FFFF

  /**
   * `json.Unmarshal` into a `map[string]interface{}`: an object gives its members, `null`
   * leaves the map nil (no members, no error), anything else is an error.
   */
  function AsObject(decoded: Result<JsonValue, string>): (m: Option<map<string, JsonValue>>)
    ensures m.Some? <==> decoded.Success? && (decoded.value.JObj? || decoded.value.JNull?)
    ensures m.Some? && decoded.value.JObj? ==> m.value == decoded.value.fields
    ensures m.Some? && decoded.value.JNull? ==> m.value == map[]
  {
    match decoded
    case Success(JObj(fields)) => Some(fields)
    case Success(JNull) => Some(map[])
    case _ => None
  }

  /** `m[key].(string)` in its comma-ok form: a value only when the member is a JSON string. */
  function StringMember(m: map<string, JsonValue>, key: string): (r: Option<string>)
    ensures r.Some? <==> key in m && m[key].JStr?
    ensures r.Some? ==> r.value == m[key].s
  {
    if key in m && m[key].JStr? then Some(m[key].s) else None
  }

  /** The word `encoding/json` uses for a value's kind in its type errors. */
  function KindName(v: JsonValue): string {
    match v
    case JNull => "null"
    case JBool(_) => "bool"
    case JInt(_) => "number"
    case JReal(_) => "number"
    case JStr(_) => "string"
    case JArr(_) => "array"
    case JObj(_) => "object"
  }

  function FieldTypeError(v: JsonValue, key: string, goType: string): string {
    "json: cannot unmarshal " + KindName(v) + " into Go struct field ." + key + " of type " + goType
  }

  /** Binding a member to a `string` struct field: absent or `null` keeps "", a string is taken, anything else is a type error. */
  function BindString(m: map<string, JsonValue>, key: string): (r: Result<string, string>)
    ensures r.Success? <==> key !in m || m[key].JNull? || m[key].JStr?
    ensures r.Success? ==> r.value == (if key in m && m[key].JStr? then m[key].s else "")
  {
    if key !in m then Success("")
    else match m[key]
      case JNull => Success("")
      case JStr(s) => Success(s)
      case v => Failure(FieldTypeError(v, key, "string"))
  }

  /** Binding a member to an `*int` struct field: absent or `null` leaves nil, an integer literal in range is taken. */
  function BindIntPointer(m: map<string, JsonValue>, key: string): (r: Result<Option<int>, string>)
    ensures r.Success? <==> key !in m || m[key].JNull? || (m[key].JInt? && MinInt64 <= m[key].i <= MaxInt64)
    ensures r.Success? && r.value.Some? ==> key in m && m[key] == JInt(r.value.value)
    ensures r.Success? && r.value.None? ==> key !in m || m[key].JNull?
  {
    if key !in m then Success(None)
    else match m[key]
      case JNull => Success(None)
      case JInt(i) => if MinInt64 <= i <= MaxInt64 then Success(Some(i)) else Failure(FieldTypeError(m[key], key, "int"))
      case v => Failure(FieldTypeError(v, key, "int"))
  }

  /** The error `encoding/json` reports when the top-level value cannot fill a struct. */
  function StructTypeError(v: JsonValue): string {
    "json: cannot unmarshal " + KindName(v) + " into Go value of type struct"
  }
}
