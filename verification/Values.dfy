/** JSON values, records and partitions. */
module Values {

  /** A JSON number: an integer, or a float held as a real (rounding is not modelled). */
  datatype Number = Integer(i: int) | Float(f: real)

  datatype Value =
    | Null
    | Bool(b: bool)
    | Num(n: Number)
    | Str(s: string)
    | Array(items: seq<Value>)
    | Object(fields: map<string, Value>)

  type Fields = map<string, Value>

  /** A partition as operators see it: its number and its records. */
  datatype Partition = Partition(id: nat, records: seq<Value>)
}
