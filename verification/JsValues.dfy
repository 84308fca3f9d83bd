/** The JSON values that the document and OCR routes read, with strings and numbers as the routes compute with them. */
module JsValues {
  import opened JsStrings

  /** An object is its own enumerable properties in order. */
  datatype Value =
    | Undefined
    | Null
    | Bool(b: bool)
    | Number(n: real)
    | Text(s: string)
    | Array(items: seq<Value>)
    | Object(fields: seq<Field>)

  datatype Field = Field(name: string, value: Value)

  function Lookup(fields: seq<Field>, name: string): Value {
    if fields == [] then Undefined else if fields[0].name == name then fields[0].value else Lookup(fields[1..], name)
  }

  /** `v.name`; arrays have none of the names that are asked for here. */
  function Get(v: Value, name: string): Value {
    if v.Object? then Lookup(v.fields, name) else Undefined
  }

  predicate Truthy(v: Value) {
    match v
    case Undefined => false
    case Null => false
    case Bool(b) => b
    case Number(n) => n != 0.0
    case Text(s) => s != ""
    case _ => true
  }

  /** `typeof v === "string" && v.trim()` is truthy. */
  predicate IsLabel(v: Value) {
    v.Text? && Trim(v.s) != ""
  }

  /** `v ?? null` */
  function OrNull(v: Value): Value {
    if v.Undefined? then Null else v
  }

  /** `typeof v === "number" ? v : null` */
  function NumberOrNull(v: Value): Value {
    if v.Number? then v else Null
  }

  /** Looking up a name among one or two properties. */
  lemma TwoFields(a: Field, b: Field, name: string)
    ensures Lookup([], name) == Undefined && Lookup([a], name) == if a.name == name then a.value else Undefined
    ensures Lookup([a, b], name) == if a.name == name then a.value else Lookup([b], name)
    ensures Lookup([b], name) == if b.name == name then b.value else Undefined
  {
    assert [a, b][1..] == [b] && [b][1..] == [] && [a][1..] == [];
  }
}
