/** The values JSON.parse produces, as far as the schedule pipeline looks at
    them, with JavaScript's truthiness and property access. Numbers are
    integers here. */
module Json {

  datatype JsonValue =
    | JNull
    | JBool(b: bool)
    | JNumber(n: int)
    | JString(s: string)
    | JArray(items: seq<JsonValue>)
    | JObject(fields: map<string, JsonValue>)

  /** JavaScript truthiness: null, false, 0 and the empty string are falsy;
      every array and every object is truthy. */
  predicate Truthy(v: JsonValue) {
    match v
    case JNull => false
    case JBool(b) => b
    case JNumber(n) => n != 0
    case JString(s) => s != ""
    case JArray(_) => true
    case JObject(_) => true
  }

  /** What reading `v.key` gives: a value, `undefined`, or a TypeError when
      `v` is null. */
  datatype Access = Undefined | Defined(value: JsonValue) | Thrown

  /** Reading a named property. Only objects carry the properties the
      pipeline asks for ("tasks", "explanation", "time", "task"); on a
      boolean, number, string or array they read as undefined. */
  function Property(v: JsonValue, key: string): (r: Access)
    ensures r.Thrown? <==> v.JNull?
    ensures r.Defined? <==> v.JObject? && key in v.fields
    ensures r.Defined? ==> r.value == v.fields[key]
  {
    match v
    case JNull => Thrown
    case JObject(fields) => if key in fields then Defined(fields[key]) else Undefined
    case _ => Undefined
  }

  /** `v.key` is defined and truthy. */
  predicate TruthyProperty(v: JsonValue, key: string) {
    var a := Property(v, key);
    a.Defined? && Truthy(a.value)
  }
}
