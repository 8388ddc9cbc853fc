/** Character and string helpers shared by the Python back end and the JavaScript front end:
    digit runs and decimal numerals, splitting and joining, whitespace stripping, ASCII case. */
module Text {

  // ---------------------------------------------------------------- digits and numerals

  predicate IsDigit(c: char) { '0' <= c <= '9' }

  predicate AllDigits(s: string) { forall i :: 0 <= i < |s| ==> IsDigit(s[i]) }

  function DigitVal(c: char): (d: nat)
    requires IsDigit(c)
    ensures d < 10
  {
    (c as int) - ('0' as int)
  }

  function DigitChar(d: nat): (c: char)
    requires d < 10
    ensures IsDigit(c) && DigitVal(c) == d
  {
    (('0' as int) + d) as char
  }

  /** The value of a decimal digit string; leading zeros are allowed. */
  function DigitsValue(ds: string): nat
    requires AllDigits(ds)
    decreases |ds|
  {
    if ds == [] then 0 else DigitsValue(ds[..|ds| - 1]) * 10 + DigitVal(ds[|ds| - 1])
  }

  /** The shortest decimal numeral of `n` (what Python's `str` and JavaScript's `String` print). */
  function NatToString(n: nat): (s: string)
    ensures |s| >= 1 && AllDigits(s)
  {
    if n < 10 then [DigitChar(n)] else NatToString(n / 10) + [DigitChar(n % 10)]
  }

  function IntToString(i: int): (s: string)
    ensures |s| >= 1
  {
    if i < 0 then "-" + NatToString(-i) else NatToString(i)
  }

  lemma {:induction false} NatToStringValue(n: nat)
    ensures DigitsValue(NatToString(n)) == n
  {
    var s := NatToString(n);
    if n >= 10 {
      NatToStringValue(n / 10);
      assert s[..|s| - 1] == NatToString(n / 10);
    }
  }

  /** The longest prefix of `s` made of decimal digits. */
  function DigitPrefix(s: string): (p: string)
    ensures AllDigits(p) && p <= s
    ensures |p| < |s| ==> !IsDigit(s[|p|])
  {
    if s != [] && IsDigit(s[0]) then [s[0]] + DigitPrefix(s[1..]) else ""
  }

  lemma {:induction false} DigitPrefixOfDigits(s: string)
    requires AllDigits(s)
    ensures DigitPrefix(s) == s
  {
    if s != [] { DigitPrefixOfDigits(s[1..]); }
  }

  // ---------------------------------------------------------------- whitespace

  /** Python's `str.isspace`, which `str.strip()` removes (by code point). */
  predicate PyWhitespace(c: char) {
    var n := c as int;
    (9 <= n <= 13) || (28 <= n <= 32) || n == 0x85 || n == 0xA0 || n == 0x1680
    || (0x2000 <= n <= 0x200A) || n == 0x2028 || n == 0x2029 || n == 0x202F
    || n == 0x205F || n == 0x3000
  }

  /** JavaScript's WhiteSpace and LineTerminator, which `String.prototype.trim` removes. */
  predicate JsWhitespace(c: char) {
    var n := c as int;
    (9 <= n <= 13) || n == 32 || n == 0xA0 || n == 0x1680
    || (0x2000 <= n <= 0x200A) || n == 0x2028 || n == 0x2029 || n == 0x202F
    || n == 0x205F || n == 0x3000 || n == 0xFEFF
  }

  function TrimStart(s: string, ws: char -> bool): (t: string)
    ensures |t| <= |s| && t == s[|s| - |t|..]
    ensures t != [] ==> !ws(t[0])
  {
    if s != [] && ws(s[0]) then TrimStart(s[1..], ws) else s
  }

  function TrimEnd(s: string, ws: char -> bool): (t: string)
    ensures t <= s
    ensures t != [] ==> !ws(t[|t| - 1])
  {
    if s != [] && ws(s[|s| - 1]) then TrimEnd(s[..|s| - 1], ws) else s
  }

  /** Removes the characters `ws` accepts from both ends. */
  function Strip(s: string, ws: char -> bool): (t: string)
    ensures |t| <= |s|
    ensures t != [] ==> !ws(t[0]) && !ws(t[|t| - 1])
  {
    var a := TrimStart(s, ws);
    var b := TrimEnd(a, ws);
    assert b != [] ==> b[0] == a[0];
    b
  }

  /** Python's `str.strip()`. */
  function PyStrip(s: string): string { Strip(s, PyWhitespace) }

  /** JavaScript's `String.prototype.trim()`. */
  function JsTrim(s: string): string { Strip(s, JsWhitespace) }

  lemma StripUnchanged(s: string, ws: char -> bool)
    requires s != [] ==> !ws(s[0]) && !ws(s[|s| - 1])
    ensures Strip(s, ws) == s
  {
  }

  /** A numeral has nothing to strip. */
  lemma StripDigits(ds: string)
    requires ds != [] && AllDigits(ds)
    ensures PyStrip(ds) == ds && JsTrim(ds) == ds
  {
    var a, z := ds[0] as int, ds[|ds| - 1] as int;
    assert 48 <= a <= 57 && 48 <= z <= 57;
    StripUnchanged(ds, PyWhitespace);
    StripUnchanged(ds, JsWhitespace);
  }

  lemma StripLeading(c: char, s: string, ws: char -> bool)
    requires ws(c)
    ensures Strip([c] + s, ws) == Strip(s, ws)
  {
    assert ([c] + s)[1..] == s;
  }

  // ---------------------------------------------------------------- splitting and joining

  /** Splits `s` at every character `sep` accepts, keeping empty pieces, like Python's
      `str.split(",")`, `re.split("[-–]", ...)` and JavaScript's `split`. */
  function Split(s: string, sep: char -> bool): (parts: seq<string>)
    ensures |parts| >= 1
    ensures forall k, i :: 0 <= k < |parts| && 0 <= i < |parts[k]| ==> !sep(parts[k][i])
  {
    if s == [] then [""]
    else if sep(s[0]) then [""] + Split(s[1..], sep)
    else
      var rest := Split(s[1..], sep);
      [[s[0]] + rest[0]] + rest[1..]
  }

  predicate NoneOf(s: string, sep: char -> bool) { forall i :: 0 <= i < |s| ==> !sep(s[i]) }

  lemma {:induction false} SplitNoSeparator(s: string, sep: char -> bool)
    requires NoneOf(s, sep)
    ensures Split(s, sep) == [s]
  {
    if s != [] {
      SplitNoSeparator(s[1..], sep);
      assert [s[0]] + s[1..] == s;
    }
  }

  /** A piece free of separators followed by a separator splits off as the first part. */
  lemma {:induction false} SplitAfterPiece(a: string, c: char, b: string, sep: char -> bool)
    requires NoneOf(a, sep) && sep(c)
    ensures Split(a + [c] + b, sep) == [a] + Split(b, sep)
  {
    if a == [] {
      assert a + [c] + b == [c] + b;
      assert ([c] + b)[1..] == b;
    } else {
      var s := a + [c] + b;
      assert s[0] == a[0] && s[1..] == a[1..] + [c] + b;
      SplitAfterPiece(a[1..], c, b, sep);
      assert [a[0]] + a[1..] == a;
    }
  }

  /** A separator-free prefix glues onto the first part. */
  lemma {:induction false} SplitAfterPrefix(pad: string, x: string, sep: char -> bool)
    requires NoneOf(pad, sep)
    ensures var sx := Split(x, sep);
            Split(pad + x, sep) == [pad + sx[0]] + sx[1..]
    decreases |pad|
  {
    if pad != [] {
      var sx := Split(x, sep);
      var s := pad + x;
      SplitAfterPrefix(pad[1..], x, sep);
      assert s[0] == pad[0] && !sep(s[0]) && s[1..] == pad[1..] + x;
      var rest := Split(s[1..], sep);
      assert rest[0] == pad[1..] + sx[0] && rest[1..] == sx[1..];
      assert Split(s, sep) == [[s[0]] + rest[0]] + rest[1..];
      assert [pad[0]] + (pad[1..] + sx[0]) == pad + sx[0];
    } else {
      var sx := Split(x, sep);
      assert pad + x == x && pad + sx[0] == sx[0];
      assert [sx[0]] + sx[1..] == sx;
    }
  }

  /** Joins `parts` with `sep` between consecutive parts (Python's `sep.join`, JS's `join`). */
  function Join(parts: seq<string>, sep: string): string
  {
    if parts == [] then ""
    else if |parts| == 1 then parts[0]
    else parts[0] + sep + Join(parts[1..], sep)
  }

  /** Splitting text joined with `c` followed by `pad` gives back the parts, each later one
      behind its `pad`. */
  lemma {:induction false} SplitJoined(parts: seq<string>, c: char, pad: string, sep: char -> bool)
    requires |parts| >= 1 && sep(c) && NoneOf(pad, sep)
    requires forall k :: 0 <= k < |parts| ==> NoneOf(parts[k], sep)
    ensures Split(Join(parts, [c] + pad), sep)
            == [parts[0]] + seq(|parts| - 1, k requires 0 <= k < |parts| - 1 => pad + parts[k + 1])
    decreases |parts|
  {
    if |parts| == 1 {
      SplitNoSeparator(parts[0], sep);
    } else {
      var rest := parts[1..];
      var x := Join(rest, [c] + pad);
      assert Join(parts, [c] + pad) == parts[0] + [c] + (pad + x);
      SplitAfterPiece(parts[0], c, pad + x, sep);
      SplitAfterPrefix(pad, x, sep);
      SplitJoined(rest, c, pad, sep);
      var sx := Split(x, sep);
      var tail := seq(|rest| - 1, k requires 0 <= k < |rest| - 1 => pad + rest[k + 1]);
      assert sx == [rest[0]] + tail;
      assert sx[0] == parts[1] && sx[1..] == tail;
      var want := seq(|parts| - 1, k requires 0 <= k < |parts| - 1 => pad + parts[k + 1]);
      assert want == [pad + parts[1]] + tail;
    }
  }

  // ---------------------------------------------------------------- set-score text

  predicate NonNegativePairs(ps: seq<(int, int)>) {
    forall k :: 0 <= k < |ps| ==> ps[k].0 >= 0 && ps[k].1 >= 0
  }

  /** One set as text: `6-4`. */
  function PairText(a: nat, b: nat): string { NatToString(a) + "-" + NatToString(b) }

  /** Sets as the comma-separated text both ends read: `6-4, 3-6, 7-5`. */
  function SetsText(ps: seq<(int, int)>): string
    requires NonNegativePairs(ps)
  {
    Join(PairTexts(ps), ", ")
  }

  function PairTexts(ps: seq<(int, int)>): (ts: seq<string>)
    requires NonNegativePairs(ps)
    ensures |ts| == |ps| && forall k :: 0 <= k < |ps| ==> ts[k] == PairText(ps[k].0, ps[k].1)
  {
    seq(|ps|, k requires 0 <= k < |ps| => PairText(ps[k].0, ps[k].1))
  }

  // ---------------------------------------------------------------- ASCII case mapping

  function LowerChar(c: char): char { if 'A' <= c <= 'Z' then (c as int + 32) as char else c }

  function UpperChar(c: char): char { if 'a' <= c <= 'z' then (c as int - 32) as char else c }

  function Lower(s: string): (t: string)
    ensures |t| == |s| && forall i :: 0 <= i < |s| ==> t[i] == LowerChar(s[i])
  {
    seq(|s|, i requires 0 <= i < |s| => LowerChar(s[i]))
  }

  function Upper(s: string): (t: string)
    ensures |t| == |s| && forall i :: 0 <= i < |s| ==> t[i] == UpperChar(s[i])
  {
    seq(|s|, i requires 0 <= i < |s| => UpperChar(s[i]))
  }

  /** Text without capital letters is its own lower case. */
  lemma LowerUnchanged(s: string)
    requires forall k :: 0 <= k < |s| ==> !('A' <= s[k] <= 'Z')
    ensures Lower(s) == s
  {
    var t := Lower(s);
    forall k | 0 <= k < |s| ensures t[k] == s[k] {
      assert !('A' <= s[k] <= 'Z');
    }
  }

  /** Text with no capital letter and no whitespace at either end is its own key under
      `strip().lower()`. */
  lemma PyKeyUnchanged(s: string)
    requires forall k :: 0 <= k < |s| ==> !('A' <= s[k] <= 'Z')
    requires s != [] ==> !PyWhitespace(s[0]) && !PyWhitespace(s[|s| - 1])
    ensures Lower(PyStrip(s)) == s
  {
    LowerUnchanged(s);
    StripUnchanged(s, PyWhitespace);
  }

  /** Lower-casing ignores an earlier upper-casing. */
  lemma LowerOfUpper(s: string)
    ensures Lower(Upper(s)) == Lower(s)
  {
  }

  /** Upper-casing ignores an earlier lower-casing. */
  lemma UpperOfLower(s: string)
    ensures Upper(Lower(s)) == Upper(s)
  {
  }

  lemma {:induction false} TrimStartUpper(s: string, ws: char -> bool)
    requires forall c :: ws(UpperChar(c)) == ws(c)
    ensures TrimStart(Upper(s), ws) == Upper(TrimStart(s, ws))
    decreases |s|
  {
    if s != [] {
      assert Upper(s)[0] == UpperChar(s[0]);
      assert Upper(s)[1..] == Upper(s[1..]);
      if ws(s[0]) {
        TrimStartUpper(s[1..], ws);
      }
    }
  }

  lemma {:induction false} TrimEndUpper(s: string, ws: char -> bool)
    requires forall c :: ws(UpperChar(c)) == ws(c)
    ensures TrimEnd(Upper(s), ws) == Upper(TrimEnd(s, ws))
    decreases |s|
  {
    if s != [] {
      var n := |s| - 1;
      assert Upper(s)[n] == UpperChar(s[n]);
      assert Upper(s)[..n] == Upper(s[..n]);
      if ws(s[n]) {
        TrimEndUpper(s[..n], ws);
      }
    }
  }

  /** Stripping and upper-casing commute: no whitespace character is a letter. */
  lemma PyStripUpper(s: string)
    ensures PyStrip(Upper(s)) == Upper(PyStrip(s))
  {
    forall c ensures PyWhitespace(UpperChar(c)) == PyWhitespace(c) {
    }
    TrimStartUpper(s, PyWhitespace);
    TrimEndUpper(TrimStart(s, PyWhitespace), PyWhitespace);
  }

  /** `str(x).strip().lower()` sees only the letters of `x` up to case. */
  lemma PyKeyCaseInsensitive(x: string, y: string)
    requires Upper(x) == Upper(y)
    ensures Lower(PyStrip(x)) == Lower(PyStrip(y))
  {
    PyStripUpper(x);
    PyStripUpper(y);
    LowerOfUpper(PyStrip(x));
    LowerOfUpper(PyStrip(y));
  }
}
