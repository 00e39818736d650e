/** Rows as the rows endpoint returns them, and how one column of a row is
    read: `rowObj[col.key] || ''`, turned into a string. */
module Rows {
  import opened JsText

  /** A JSON cell value. */
  datatype Value = Text(text: string) | Number(number: int) | Boolean(flag: bool) | Null

  /** JavaScript truthiness of a cell value. */
  predicate Truthy(v: Value) {
    match v
    case Text(t) => t != []
    case Number(n) => n != 0
    case Boolean(b) => b
    case Null => false
  }

  /** `String(v)`. */
  function ToText(v: Value): (t: string)
    ensures Truthy(v) ==> t != []
  {
    match v
    case Text(t) => t
    case Number(n) => if n < 0 then "-" + NatToDecimal(-n) else NatToDecimal(n)
    case Boolean(b) => if b then "true" else "false"
    case Null => "null"
  }

  type Fields = map<string, Value>

  /** A row is either the bare field map or an envelope holding the field map
      under its `row` key. */
  datatype Row = Flat(fields: Fields) | Wrapped(row: Fields)

  /** `entry.row || entry`: the envelope's field map, or the bare row itself.
      A bare row whose own `row` field is truthy yields that primitive value,
      in which no column key is found, so it reads as a row without fields. */
  function Unwrap(entry: Row): (f: Fields)
    ensures entry.Wrapped? ==> f == entry.row
    ensures entry.Flat? ==> f == entry.fields || f == map[]
  {
    match entry
    case Wrapped(inner) => inner
    case Flat(f) => if "row" in f && Truthy(f["row"]) then map[] else f
  }

  /** The two shapes of a row are read alike: wrapping a field map in an
      envelope changes nothing the viewer sees, unless the bare map has a
      truthy field of its own called `row`. */
  lemma EnvelopeIsTransparent(f: Fields)
    ensures Unwrap(Wrapped(f)) == Unwrap(Flat(f)) <==> "row" !in f || !Truthy(f["row"])
  {
  }

  /** `String(fields[key] || '')`: the text of one column of a row. */
  function ColumnText(fields: Fields, key: string): (t: string)
    ensures t == [] <==> key !in fields || !Truthy(fields[key])
    ensures key in fields && fields[key].Text? ==> t == fields[key].text
  {
    if key in fields && Truthy(fields[key]) then ToText(fields[key]) else ""
  }
}
