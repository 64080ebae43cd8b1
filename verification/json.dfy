/** The decoded form of a JSON document, standing in for what `json.loads`
    returns and `json.dumps` accepts. Numbers are integers only. */
module JsonValues {

  datatype Json =
    | Null
    | Bool(b: bool)
    | Int(i: int)
    | Str(s: string)
    | Array(items: seq<Json>)
    | Object(members: seq<(string, Json)>)

  /** `n` copies of JSON null: the values Python fills in for omitted
      optional constructor arguments. */
  function Nulls(n: nat): (r: seq<Json>)
    ensures |r| == n
    ensures forall i :: 0 <= i < n ==> r[i] == Null
  {
    if n == 0 then [] else [Null] + Nulls(n - 1)
  }
}
