/** `normGender`, which the admin page, the schedule page and the roster page each define with
    the same body: any value naming the men's or the women's team, in any letter case. */
module Gender {
  import opened Wrappers
  import opened Text
  import opened Json
  import opened JsValues

  /** `normGender(g)`: `String(g || "").toLowerCase()` looked up in the two alias lists. */
  function NormGender(g: Option<Json>): (r: string)
    ensures r in {"men", "women", "unknown"}
  {
    GenderOfKey(Lower(if Truthy(g) then StringOf(g) else ""))
  }

  function GenderOfKey(s: string): string {
    if s in {"m", "male", "men", "man"} then "men"
    else if s in {"f", "female", "women", "woman"} then "women"
    else "unknown"
  }

  /** Only the letters of a text count, not their case. */
  lemma NormGenderCaseInsensitive(x: string, y: string)
    requires Upper(x) == Upper(y)
    ensures NormGender(Some(JStr(x))) == NormGender(Some(JStr(y)))
  {
    LowerOfUpper(x);
    LowerOfUpper(y);
    assert |x| == |Upper(x)| == |y|;
  }

  /** The three answers are fixed points: normalising twice is normalising once. */
  lemma NormGenderIdempotent(g: Option<Json>)
    ensures NormGender(Some(JStr(NormGender(g)))) == NormGender(g)
  {
    var r := NormGender(g);
    LowerUnchanged(r);
    assert Lower(r) == r;
    assert GenderOfKey(r) == r;
  }

  /** A missing, empty or numeric value is of unknown gender: no alias is a numeral. */
  lemma NormGenderOfNumber(i: int)
    ensures NormGender(None) == "unknown"
    ensures NormGender(Some(JStr(""))) == "unknown"
    ensures NormGender(Some(JInt(i))) == "unknown"
  {
    var s := IntToString(i);
    if i != 0 {
      var t := Lower(s);
      if i < 0 {
        assert t[0] == '-';
      } else {
        assert IsDigit(s[0]) && t[0] == s[0];
      }
      assert t !in {"m", "male", "men", "man"} && t !in {"f", "female", "women", "woman"};
    }
  }
}
