/** JSON values as the back end's `json`/database layer and the front end's `fetch().json()` hand
    them over. Numbers are integers: floating point is outside the model. */
module Json {

  datatype Json =
    | JNull
    | JBool(b: bool)
    | JInt(i: int)
    | JStr(s: string)
    | JArr(items: seq<Json>)
    | JObj(fields: map<string, Json>)

  /** A list of integer pairs as JSON: `[[6, 4], [3, 6]]`. */
  function PairsJson(ps: seq<(int, int)>): (j: Json)
    ensures j.JArr? && |j.items| == |ps|
    ensures forall k :: 0 <= k < |ps| ==> j.items[k] == JArr([JInt(ps[k].0), JInt(ps[k].1)])
  {
    JArr(seq(|ps|, k requires 0 <= k < |ps| => JArr([JInt(ps[k].0), JInt(ps[k].1)])))
  }
}
