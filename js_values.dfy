/** The JavaScript conversions the front end applies to JSON values: truthiness, `??`,
    `String(v)`, `Number(v)`, `parseInt(s, 10)`, optional chaining and indexing.
    `undefined` is `None`; a present value is `Some(v)`. */
module JsValues {
  import opened Wrappers
  import opened Text
  import opened Json

  /** The one JavaScript exception the front-end helpers can raise: a `TypeError`, from reading
      a property of `null` or calling a method a value does not have. */
  datatype JsError = JsTypeError

  /** A JavaScript number as the model sees it: an integer or NaN. */
  datatype Num = Finite(n: int) | NaN

  /** `Boolean(v)`: `undefined`, `null`, `false`, `0` and `""` are falsy; arrays and objects,
      even empty ones, are truthy. */
  predicate Truthy(v: Option<Json>) {
    match v
    case None => false
    case Some(j) =>
      match j
      case JNull => false
      case JBool(b) => b
      case JInt(i) => i != 0
      case JStr(s) => s != ""
      case JArr(_) => true
      case JObj(_) => true
  }

  predicate Nullish(v: Option<Json>) { v == None || v == Some(JNull) }

  /** `v ?? d`. */
  function Coalesce(v: Option<Json>, d: Json): Json { if Nullish(v) then d else v.value }

  /** `String(v)` of a present value; array elements that are `null` print as nothing. */
  function ToStr(v: Json): string
    decreases v
  {
    match v
    case JNull => "null"
    case JBool(b) => if b then "true" else "false"
    case JInt(i) => IntToString(i)
    case JStr(s) => s
    case JArr(items) => Join(seq(|items|, k requires 0 <= k < |items| => ElementStr(items[k], v)), ",")
    case JObj(_) => "[object Object]"
  }

  function ElementStr(e: Json, whole: Json): string
    requires e < whole
    decreases whole, 0
  {
    if e == JNull then "" else ToStr(e)
  }

  /** `String(v)`, also for `undefined`. */
  function StringOf(v: Option<Json>): string {
    match v
    case None => "undefined"
    case Some(j) => ToStr(j)
  }

  /** An optional sign followed by decimal digits. */
  function SignedDigits(t: string): Num {
    if t != [] && (t[0] == '-' || t[0] == '+') && |t| > 1 && AllDigits(t[1..]) then
      Finite(if t[0] == '-' then -(DigitsValue(t[1..]) as int) else DigitsValue(t[1..]))
    else if t != [] && AllDigits(t) then Finite(DigitsValue(t))
    else NaN
  }

  /** `Number(s)` for a string: blank text is 0, a signed decimal integer is its value. Text
      denoting a fraction, an exponent, a hexadecimal number or Infinity is NaN here. */
  function StrToNumber(s: string): Num {
    var t := JsTrim(s);
    if t == "" then Finite(0) else SignedDigits(t)
  }

  /** `Number(v)`. */
  function ToNumber(v: Option<Json>): Num {
    match v
    case None => NaN
    case Some(j) =>
      match j
      case JNull => Finite(0)
      case JBool(b) => Finite(if b then 1 else 0)
      case JInt(i) => Finite(i)
      case JStr(s) => StrToNumber(s)
      case _ => StrToNumber(ToStr(j))
  }

  /** A primitive compared with `===`: values of different types are never strictly equal. */
  datatype Prim = PStr(s: string) | PNum(n: int)

  /** Truthiness of a number: NaN and 0 are falsy. */
  predicate NumTruthy(x: Num) { x.Finite? && x.n != 0 }

  /** `x || 0` for a number. */
  function OrZero(x: Num): int { if NumTruthy(x) then x.n else 0 }

  /** `a + b` on numbers: NaN absorbs. */
  function Add(a: Num, b: Num): Num {
    if a.Finite? && b.Finite? then Finite(a.n + b.n) else NaN
  }

  /** `parseInt(s, 10)`: leading whitespace, an optional sign, then the longest run of digits;
      NaN when there is no digit. */
  function ParseInt(s: string): (r: Num)
  {
    var t := TrimStart(s, JsWhitespace);
    var neg := t != [] && t[0] == '-';
    var body := if t != [] && (t[0] == '-' || t[0] == '+') then t[1..] else t;
    var ds := DigitPrefix(body);
    if ds == [] then NaN else Finite(if neg then -(DigitsValue(ds) as int) else DigitsValue(ds))
  }

  lemma ParseIntOfNumeral(n: nat)
    ensures ParseInt(NatToString(n)) == Finite(n)
  {
    var s := NatToString(n);
    assert TrimStart(s, JsWhitespace) == s;
    DigitPrefixOfDigits(s);
    NatToStringValue(n);
  }

  /** `v?.[k]`: array element, character of a string, or the object's property named `k`. */
  function Index(v: Option<Json>, k: nat): Option<Json> {
    match v
    case None => None
    case Some(j) =>
      match j
      case JArr(items) => if k < |items| then Some(items[k]) else None
      case JStr(s) => if k < |s| then Some(JStr([s[k]])) else None
      case JObj(fs) => if NatToString(k) in fs then Some(fs[NatToString(k)]) else None
      case _ => None
  }

  /** `v?.key` for a property that only plain objects carry. */
  function Prop(v: Option<Json>, key: string): Option<Json> {
    match v
    case Some(JObj(fs)) => if key in fs then Some(fs[key]) else None
    case _ => None
  }

  predicate IsArray(v: Option<Json>) { v.Some? && v.value.JArr? }
}
