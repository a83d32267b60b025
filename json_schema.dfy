/** The part of JSON Schema the request schemas use: objects whose listed
    properties are strings with length bounds or numbers with a range, a set
    of required properties, and whether other properties are allowed. String
    lengths count Unicode code points, which is what `|s|` counts for a
    `string` here. */
module JsonSchema {
  import opened Common

  /** A JSON value. Numbers are integers in this model. */
  datatype Json =
    | JNull
    | JBool(b: bool)
    | JNumber(n: int)
    | JString(s: string)
    | JArray(items: seq<Json>)
    | JObject(fields: map<string, Json>)

  /** The constraint on one property. A missing `maxLength` is no upper bound. */
  datatype Rule =
    | StringRule(minLength: nat, maxLength: Option<nat>)
    | NumberRule(minimum: int, maximum: int)

  /** `{ type: "object", properties, required, additionalProperties }`. */
  datatype ObjectSchema = ObjectSchema(properties: map<string, Rule>, required: set<string>, additionalProperties: bool)

  predicate Satisfies(rule: Rule, v: Json)
  {
    match rule
    case StringRule(lo, hi) => v.JString? && lo <= |v.s| && (hi.None? || |v.s| <= hi.value)
    case NumberRule(lo, hi) => v.JNumber? && lo <= v.n <= hi
  }

  /** What a JSON Schema validator decides for an object schema. */
  predicate Validates(schema: ObjectSchema, v: Json)
  {
    && v.JObject?
    && (forall k | k in schema.required :: k in v.fields)
    && (schema.additionalProperties || forall k | k in v.fields :: k in schema.properties)
    && (forall k | k in v.fields && k in schema.properties :: Satisfies(schema.properties[k], v.fields[k]))
  }

  /** A string whose length lies in [lo, hi]. */
  predicate StringOfLength(v: Json, lo: nat, hi: nat)
  {
    v.JString? && lo <= |v.s| <= hi
  }

  /** A non-empty string of any length. */
  predicate NonEmptyString(v: Json)
  {
    v.JString? && |v.s| >= 1
  }

  /** A number in [lo, hi]. */
  predicate NumberBetween(v: Json, lo: int, hi: int)
  {
    v.JNumber? && lo <= v.n <= hi
  }

  /** The object keeping only the listed properties. */
  function Project(fields: map<string, Json>, keys: set<string>): (r: map<string, Json>)
    ensures r.Keys == fields.Keys * keys
    ensures forall k | k in r :: r[k] == fields[k]
  {
    map k | k in fields && k in keys :: fields[k]
  }
}
