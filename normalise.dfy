/** The back end's tolerant input normalisers (match-tracker-backend/main.py): `_coerce_sets`,
    `_coerce_current_game`, `_coerce_serve`, `_coerce_winner` and `_looks_live`, over Python
    values as JSON. `json.loads` is the parameter `loads`: `None` stands for a
    `JSONDecodeError`. A `ValueError` or `TypeError` that escapes is an `Err`. */
module Normalise {
  import opened Wrappers
  import opened Text
  import opened Json

  /** One set as stored: `[team, opp]`. */
  type SetPair = (int, int)

  /** An exception the normaliser lets escape (FastAPI turns it into a 500). */
  datatype PyError = ValueError | TypeError

  // ---------------------------------------------------------------- Python conversions

  /** Python truthiness: `None`, `False`, `0`, `""`, `[]` and `{}` are falsy. */
  predicate PyTruthy(v: Json) {
    match v
    case JNull => false
    case JBool(b) => b
    case JInt(i) => i != 0
    case JStr(s) => s != ""
    case JArr(xs) => xs != []
    case JObj(fs) => fs != map[]
  }

  /** `int(s)` for a string: surrounding whitespace, an optional sign, decimal digits. */
  function PyIntOfStr(s: string): Option<int> {
    var t := PyStrip(s);
    if t != [] && (t[0] == '-' || t[0] == '+') && |t| > 1 && AllDigits(t[1..]) then
      Some(if t[0] == '-' then -(DigitsValue(t[1..]) as int) else DigitsValue(t[1..]))
    else if t != [] && AllDigits(t) then Some(DigitsValue(t))
    else None
  }

  /** `int(v or 0)`: falsy values give 0; text must be a numeral; a non-empty list or dict
      raises `TypeError`. */
  function IntOr0(v: Json): (r: Result<int, PyError>)
    ensures !PyTruthy(v) ==> r == Ok(0)
    ensures v.JInt? ==> r == Ok(v.i)
  {
    if !PyTruthy(v) then Ok(0)
    else match v
      case JBool(_) => Ok(1)
      case JInt(i) => Ok(i)
      case JStr(s) => if PyIntOfStr(s).Some? then Ok(PyIntOfStr(s).value) else Err(ValueError)
      case _ => Err(TypeError)
  }

  /** `d.get(k)`. */
  function Get(d: map<string, Json>, k: string): Json { if k in d then d[k] else JNull }

  /** `x = d.get(k1); if x is None: x = d.get(k2); if x is None: x = d.get(k3)`. */
  function FirstPresent(d: map<string, Json>, k1: string, k2: string, k3: string): Json {
    if Get(d, k1) != JNull then Get(d, k1)
    else if Get(d, k2) != JNull then Get(d, k2)
    else Get(d, k3)
  }

  /** `[int(team or 0), int(opp or 0)]` for a dict, with the fallbacks team, team_score, a and
      opp, opponent_score, b. */
  function PairOfDict(d: map<string, Json>): Result<SetPair, PyError> {
    var team := IntOr0(FirstPresent(d, "team", "team_score", "a"));
    var opp := IntOr0(FirstPresent(d, "opp", "opponent_score", "b"));
    if team.Err? then Err(team.error)
    else if opp.Err? then Err(opp.error)
    else Ok((team.value, opp.value))
  }

  /** `[int(x[0] or 0), int(x[1] or 0)]`. */
  function PairOfList(xs: seq<Json>): Result<SetPair, PyError>
    requires |xs| >= 2
  {
    var team := IntOr0(xs[0]);
    var opp := IntOr0(xs[1]);
    if team.Err? then Err(team.error)
    else if opp.Err? then Err(opp.error)
    else Ok((team.value, opp.value))
  }

  predicate IsComma(c: char) { c == ',' }

  /** The character class `[-–]`: ASCII hyphen or en dash. */
  predicate IsDash(c: char) { c == '-' || c == '–' }

  predicate NotDigit(c: char) { !IsDigit(c) }

  // ---------------------------------------------------------------- _coerce_sets

  /** One comma-separated chunk of set text: blank chunks and chunks that do not split into
      exactly two parts give nothing; a side that is not a numeral is 0. */
  function ChunkPair(chunk: string): Option<SetPair> {
    var c := PyStrip(chunk);
    if c == "" then None
    else
      var parts := Split(c, IsDash);
      if |parts| != 2 then None
      else Some((PyIntOfStr(PyStrip(parts[0])).GetOr(0), PyIntOfStr(PyStrip(parts[1])).GetOr(0)))
  }

  /** The text fallback's result for the chunks seen so far. */
  function TextSets(chunks: seq<string>): seq<SetPair> {
    Collect(chunks, ChunkPair)
  }

  /** What `f` gives for the elements of `xs`, in order, skipping `None`. */
  function Collect<T, U>(xs: seq<T>, f: T -> Option<U>): seq<U>
    decreases |xs|
  {
    if xs == [] then []
    else
      var p := f(xs[|xs| - 1]);
      Collect(xs[..|xs| - 1], f) + (if p.Some? then [p.value] else [])
  }

  /** One list item: a list of length at least two or a dict gives a pair; anything else is
      dropped (`None`). */
  function ItemPair(item: Json): Result<Option<SetPair>, PyError> {
    match item
    case JArr(xs) =>
      if |xs| >= 2 then
        var p := PairOfList(xs);
        if p.Err? then Err(p.error) else Ok(Some(p.value))
      else Ok(None)
    case JObj(d) =>
      var p := PairOfDict(d);
      if p.Err? then Err(p.error) else Ok(Some(p.value))
    case _ => Ok(None)
  }

  /** The list branch's result for the items seen so far; the first raising item aborts. */
  function ItemsSets(items: seq<Json>): Result<seq<SetPair>, PyError>
    decreases |items|
  {
    if items == [] then Ok([])
    else
      var acc := ItemsSets(items[..|items| - 1]);
      if acc.Err? then acc
      else
        var p := ItemPair(items[|items| - 1]);
        if p.Err? then Err(p.error)
        else Ok(acc.value + (if p.value.Some? then [p.value.value] else []))
  }

  /** What `_coerce_sets` does with parsed data: a dict is replaced by its "sets" entry, and
      anything but a list gives no sets. */
  function StructuredSets(data: Json): Result<seq<SetPair>, PyError> {
    var d := if data.JObj? then (if "sets" in data.fields then data.fields["sets"] else JArr([]))
             else data;
    if d.JArr? then ItemsSets(d.items) else Ok([])
  }

  /** `_coerce_sets(value)`. */
  function CoercedSets(value: Json, loads: string -> Option<Json>): Result<seq<SetPair>, PyError> {
    if value == JNull || value == JStr("") then Ok([])
    else if value.JStr? then
      var text := PyStrip(value.s);
      if text == "" then Ok([])
      else if loads(text).None? then Ok(TextSets(Split(text, IsComma)))
      else StructuredSets(loads(text).value)
    else StructuredSets(value)
  }

  /** `_coerce_sets`: the text fallback and the list branch each accumulate in a loop. */
  method CoerceSets(value: Json, loads: string -> Option<Json>) returns (r: Result<seq<SetPair>, PyError>)
    ensures r == CoercedSets(value, loads)
  {
    if value == JNull || value == JStr("") {
      return Ok([]);
    }
    var data := value;
    if value.JStr? {
      var text := PyStrip(value.s);
      if text == "" {
        return Ok([]);
      }
      var parsed := loads(text);
      if parsed.None? {
        var scores := SetsFromText(text);
        return Ok(scores);
      }
      data := parsed.value;
    }
    if data.JObj? {
      data := if "sets" in data.fields then data.fields["sets"] else JArr([]);
    }
    if !data.JArr? {
      return Ok([]);
    }
    r := SetsFromItems(data.items);
  }

  /** The `except json.JSONDecodeError` branch: one pair per usable comma-separated chunk. */
  method SetsFromText(text: string) returns (scores: seq<SetPair>)
    ensures scores == TextSets(Split(text, IsComma))
  {
    var chunks := Split(text, IsComma);
    scores := [];
    var i := 0;
    while i < |chunks|
      invariant 0 <= i <= |chunks|
      invariant scores == TextSets(chunks[..i])
    {
      var p := ChunkPair(chunks[i]);
      TextSetsStep(chunks, i);
      if p.Some? {
        scores := scores + [p.value];
      }
      i := i + 1;
    }
    assert chunks[..|chunks|] == chunks;
  }

  /** The `for item in data` loop: pairs from list and dict items, in order. */
  method SetsFromItems(items: seq<Json>) returns (r: Result<seq<SetPair>, PyError>)
    ensures r == ItemsSets(items)
  {
    var normalized: seq<SetPair> := [];
    var j := 0;
    while j < |items|
      invariant 0 <= j <= |items|
      invariant ItemsSets(items[..j]) == Ok(normalized)
    {
      var p := ItemPair(items[j]);
      ItemsSetsStep(items, j);
      if p.Err? {
        ItemsSetsAbort(items, j + 1);
        return Err(p.error);
      }
      if p.value.Some? {
        normalized := normalized + [p.value.value];
      } else {
        assert normalized + [] == normalized;
      }
      assert ItemsSets(items[..j + 1]) == Ok(normalized);
      j := j + 1;
    }
    assert items[..|items|] == items;
    return Ok(normalized);
  }

  lemma TextSetsStep(chunks: seq<string>, i: nat)
    requires i < |chunks|
    ensures TextSets(chunks[..i + 1])
            == TextSets(chunks[..i]) + (if ChunkPair(chunks[i]).Some? then [ChunkPair(chunks[i]).value] else [])
  {
    CollectStep(chunks, i, ChunkPair);
  }

  lemma CollectStep<T, U>(xs: seq<T>, i: nat, f: T -> Option<U>)
    requires i < |xs|
    ensures Collect(xs[..i + 1], f) == Collect(xs[..i], f) + (if f(xs[i]).Some? then [f(xs[i]).value] else [])
  {
    assert xs[..i + 1][..i] == xs[..i];
  }

  lemma ItemsSetsStep(items: seq<Json>, j: nat)
    requires j < |items|
    ensures var acc := ItemsSets(items[..j]); var p := ItemPair(items[j]);
            ItemsSets(items[..j + 1])
            == if acc.Err? then acc
               else if p.Err? then Err(p.error)
               else Ok(acc.value + (if p.value.Some? then [p.value.value] else []))
  {
    assert items[..j + 1][..j] == items[..j];
  }

  /** Once an item has raised, no later item changes the outcome. */
  lemma {:induction false} ItemsSetsAbort(items: seq<Json>, k: nat)
    requires k <= |items| && ItemsSets(items[..k]).Err?
    ensures ItemsSets(items) == ItemsSets(items[..k])
    decreases |items| - k
  {
    if k < |items| {
      assert items[..k + 1][..k] == items[..k];
      ItemsSetsAbort(items, k + 1);
    } else {
      assert items[..k] == items;
    }
  }

  /** The text fallback yields at most one set per comma-separated chunk. */
  lemma TextSetsAtMostOnePerChunk(chunks: seq<string>)
    ensures |TextSets(chunks)| <= |chunks|
  {
    CollectAtMostOne(chunks, ChunkPair);
  }

  lemma {:induction false} CollectAtMostOne<T, U>(xs: seq<T>, f: T -> Option<U>)
    ensures |Collect(xs, f)| <= |xs|
    decreases |xs|
  {
    if xs != [] { CollectAtMostOne(xs[..|xs| - 1], f); }
  }

  /** The list branch yields at most one set per item. */
  lemma {:induction false} ItemsSetsAtMostOnePerItem(items: seq<Json>)
    ensures ItemsSets(items).Ok? ==> |ItemsSets(items).value| <= |items|
    decreases |items|
  {
    if items != [] { ItemsSetsAtMostOnePerItem(items[..|items| - 1]); }
  }

  /** Normalising what `_coerce_sets` wrote gives it back unchanged: stored sets survive every
      later read through `_score_row_to_dict`. */
  lemma {:induction false} CoercedSetsOfPairs(ps: seq<SetPair>, loads: string -> Option<Json>)
    ensures CoercedSets(PairsJson(ps), loads) == Ok(ps)
  {
    ItemsSetsOfPairs(ps);
  }

  lemma ItemsSetsOfPairs(ps: seq<SetPair>)
    ensures ItemsSets(PairsJson(ps).items) == Ok(ps)
  {
    var items := PairsJson(ps).items;
    forall k | 0 <= k < |items| ensures ItemPair(items[k]) == Ok(Some(ps[k])) {
      ItemPairOfPairList(ps[k]);
    }
    ItemsSetsAll(items, ps);
  }

  /** A stored `[a, b]` reads back as its pair. */
  lemma ItemPairOfPairList(p: SetPair)
    ensures ItemPair(JArr([JInt(p.0), JInt(p.1)])) == Ok(Some(p))
  {
  }

  /** When every item reads as a set, the list branch keeps them all, in order. */
  lemma {:induction false} ItemsSetsAll(items: seq<Json>, ps: seq<SetPair>)
    requires |items| == |ps|
    requires forall k :: 0 <= k < |items| ==> ItemPair(items[k]) == Ok(Some(ps[k]))
    ensures ItemsSets(items) == Ok(ps)
    decreases |items|
  {
    if items != [] {
      var n := |items| - 1;
      ItemsSetsAll(items[..n], ps[..n]);
      assert ItemPair(items[n]) == Ok(Some(ps[n]));
      assert ps[..n] + [ps[n]] == ps;
    }
  }

  /** A list payload of integer lists (what `UpdateScore.sets` validates to) as JSON. */
  function IntListsJson(xss: seq<seq<int>>): (j: Json)
    ensures j.JArr? && |j.items| == |xss|
  {
    JArr(seq(|xss|, k requires 0 <= k < |xss| =>
      JArr(seq(|xss[k]|, m requires 0 <= m < |xss[k]| => JInt(xss[k][m])))))
  }

  /** The pairs `_coerce_sets` keeps from integer lists: the first two entries of each list of
      length at least two, in order; shorter lists are dropped. */
  function PairsOfIntLists(xss: seq<seq<int>>): (ps: seq<SetPair>)
    decreases |xss|
  {
    if xss == [] then []
    else
      var last := xss[|xss| - 1];
      PairsOfIntLists(xss[..|xss| - 1]) + (if |last| >= 2 then [(last[0], last[1])] else [])
  }

  /** Integer lists never make `_coerce_sets` raise. */
  lemma {:induction false} CoercedSetsOfIntLists(xss: seq<seq<int>>, loads: string -> Option<Json>)
    ensures CoercedSets(IntListsJson(xss), loads) == Ok(PairsOfIntLists(xss))
  {
    ItemsSetsOfIntLists(xss);
  }

  lemma {:induction false} ItemsSetsOfIntLists(xss: seq<seq<int>>)
    ensures ItemsSets(IntListsJson(xss).items) == Ok(PairsOfIntLists(xss))
    decreases |xss|
  {
    if xss != [] {
      var items := IntListsJson(xss).items;
      ItemsSetsOfIntLists(xss[..|xss| - 1]);
      assert IntListsJson(xss[..|xss| - 1]).items == items[..|items| - 1];
    }
  }

  // ---------------------------------------------------------------- the text fallback reads set text

  lemma PyIntOfNumeral(n: nat)
    ensures PyIntOfStr(PyStrip(NatToString(n))) == Some(n)
  {
    var s := NatToString(n);
    assert IsDigit(s[0]) && IsDigit(s[|s| - 1]);
    StripUnchanged(s, PyWhitespace);
    assert !(s[0] == '-' || s[0] == '+');
    NatToStringValue(n);
  }

  lemma StripPairText(a: nat, b: nat, lead: string)
    requires lead == "" || lead == " "
    ensures PyStrip(lead + PairText(a, b)) == PairText(a, b)
  {
    var t := PairText(a, b);
    var sa, sb := NatToString(a), NatToString(b);
    assert t == sa + ['-'] + sb;
    assert t[0] == sa[0] && t[|t| - 1] == sb[|sb| - 1];
    StripUnchanged(t, PyWhitespace);
    if lead == " " {
      assert lead + t == [' '] + t;
      StripLeading(' ', t, PyWhitespace);
    } else {
      assert lead + t == t;
    }
  }

  lemma SplitPairText(a: nat, b: nat)
    ensures Split(PairText(a, b), IsDash) == [NatToString(a), NatToString(b)]
  {
    var sa, sb := NatToString(a), NatToString(b);
    assert NoneOf(sa, IsDash) && NoneOf(sb, IsDash);
    assert PairText(a, b) == sa + ['-'] + sb;
    SplitAfterPiece(sa, '-', sb, IsDash);
    SplitNoSeparator(sb, IsDash);
  }

  /** A chunk `6-4` (after the comma, possibly behind a space) gives the pair it shows. */
  lemma ChunkPairOfPairText(a: nat, b: nat, lead: string)
    requires lead == "" || lead == " "
    ensures ChunkPair(lead + PairText(a, b)) == Some((a, b))
  {
    StripPairText(a, b, lead);
    SplitPairText(a, b);
    PyIntOfNumeral(a);
    PyIntOfNumeral(b);
  }

  lemma TextSetsOfUsableChunks(chunks: seq<string>, ps: seq<SetPair>)
    requires |chunks| == |ps|
    requires forall k :: 0 <= k < |chunks| ==> ChunkPair(chunks[k]) == Some(ps[k])
    ensures TextSets(chunks) == ps
  {
    CollectAll(chunks, ChunkPair, ps);
  }

  lemma CollectSingle<T, U>(x: T, f: T -> Option<U>)
    ensures Collect([x], f) == if f(x).Some? then [f(x).value] else []
  {
    assert [x][..0] == [];
  }

  /** When `f` gives a value for every element, `Collect` keeps them all. */
  lemma {:induction false} CollectAll<T, U>(xs: seq<T>, f: T -> Option<U>, ys: seq<U>)
    requires |xs| == |ys|
    requires forall k :: 0 <= k < |xs| ==> f(xs[k]) == Some(ys[k])
    ensures Collect(xs, f) == ys
    decreases |xs|
  {
    if xs != [] {
      var n := |xs| - 1;
      CollectAll(xs[..n], f, ys[..n]);
      assert f(xs[n]) == Some(ys[n]);
      assert ys[..n] + [ys[n]] == ys;
    }
  }

  /** Comma-splitting set text gives one chunk per set, each reading as that set. */
  lemma SetsTextChunks(ps: seq<SetPair>)
    requires NonNegativePairs(ps) && ps != []
    ensures var chunks := Split(SetsText(ps), IsComma);
            |chunks| == |ps| && forall k :: 0 <= k < |ps| ==> ChunkPair(chunks[k]) == Some(ps[k])
  {
    var texts := PairTexts(ps);
    PairTextsNoComma(ps);
    assert NoneOf(" ", IsComma);
    assert ", " == [','] + " ";
    SplitJoined(texts, ',', " ", IsComma);
    var chunks := Split(SetsText(ps), IsComma);
    forall k | 0 <= k < |ps| ensures ChunkPair(chunks[k]) == Some(ps[k]) {
      var lead := if k == 0 then "" else " ";
      assert chunks[k] == lead + texts[k];
      ChunkPairOfPairText(ps[k].0, ps[k].1, lead);
    }
  }

  lemma PairTextsNoComma(ps: seq<SetPair>)
    requires NonNegativePairs(ps)
    ensures forall k :: 0 <= k < |ps| ==> NoneOf(PairTexts(ps)[k], IsComma)
  {
    forall k | 0 <= k < |ps| ensures NoneOf(PairTexts(ps)[k], IsComma) {
      var a, b := NatToString(ps[k].0), NatToString(ps[k].1);
      assert PairTexts(ps)[k] == a + "-" + b;
    }
  }

  lemma {:induction false} JoinEnds(parts: seq<string>, sep: string)
    requires |parts| >= 1 && forall k :: 0 <= k < |parts| ==> parts[k] != []
    ensures var t := Join(parts, sep);
            t != [] && t[0] == parts[0][0] && t[|t| - 1] == parts[|parts| - 1][|parts[|parts| - 1]| - 1]
    decreases |parts|
  {
    if |parts| > 1 {
      JoinEnds(parts[1..], sep);
    }
  }

  /** Set text has no surrounding whitespace. */
  lemma SetsTextStripped(ps: seq<SetPair>)
    requires NonNegativePairs(ps) && ps != []
    ensures SetsText(ps) != "" && PyStrip(SetsText(ps)) == SetsText(ps)
  {
    var texts := PairTexts(ps);
    var n := |ps| - 1;
    var sa, sb := NatToString(ps[0].0), NatToString(ps[n].1);
    assert texts[0] == sa + "-" + NatToString(ps[0].1);
    assert texts[n] == NatToString(ps[n].0) + "-" + sb;
    assert texts[0][0] == sa[0];
    assert texts[n][|texts[n]| - 1] == sb[|sb| - 1];
    JoinEnds(texts, ", ");
    StripUnchanged(SetsText(ps), PyWhitespace);
  }

  /** The text fallback reads `6-4, 3-6, 7-5` back as the sets it was written from. */
  lemma CoercedSetsOfSetsText(ps: seq<SetPair>, loads: string -> Option<Json>)
    requires NonNegativePairs(ps)
    requires loads(SetsText(ps)) == None
    ensures CoercedSets(JStr(SetsText(ps)), loads) == Ok(ps)
  {
    if ps != [] {
      SetsTextStripped(ps);
      SetsTextChunks(ps);
      TextSetsOfUsableChunks(Split(SetsText(ps), IsComma), ps);
    }
  }

  /** The concrete case: `"6-4, 3-6, 7-5"` gives `[[6,4],[3,6],[7,5]]`. */
  lemma CoercedSetsExample(loads: string -> Option<Json>)
    requires loads("6-4, 3-6, 7-5") == None
    ensures CoercedSets(JStr("6-4, 3-6, 7-5"), loads) == Ok([(6, 4), (3, 6), (7, 5)])
  {
    var ps: seq<SetPair> := [(6, 4), (3, 6), (7, 5)];
    ExampleSetsText(ps);
    CoercedSetsOfSetsText(ps, loads);
  }

  lemma ExampleSetsText(ps: seq<SetPair>)
    requires ps == [(6, 4), (3, 6), (7, 5)]
    ensures SetsText(ps) == "6-4, 3-6, 7-5"
  {
    var ts := PairTexts(ps);
    ExamplePairTexts(ps);
    assert ts[1..] == ["3-6", "7-5"];
    assert ts[1..][1..] == ["7-5"];
    assert Join(ts[1..][1..], ", ") == "7-5";
    assert Join(ts[1..], ", ") == "3-6" + ", " + "7-5";
  }

  lemma ExamplePairTexts(ps: seq<SetPair>)
    requires ps == [(6, 4), (3, 6), (7, 5)]
    ensures PairTexts(ps) == ["6-4", "3-6", "7-5"]
  {
    assert NatToString(6) == "6" && NatToString(4) == "4" && NatToString(3) == "3";
    assert NatToString(7) == "7" && NatToString(5) == "5";
    var ts := PairTexts(ps);
    assert ts[0] == "6-4" && ts[1] == "3-6" && ts[2] == "7-5";
  }

  /** Text with neither a comma nor a dash holds no usable chunk and gives no sets. */
  lemma CoercedSetsOfDashlessText(s: string, loads: string -> Option<Json>)
    requires NoneOf(s, IsComma) && NoneOf(s, IsDash)
    requires s != [] ==> !PyWhitespace(s[0]) && !PyWhitespace(s[|s| - 1])
    requires loads(s) == None
    ensures CoercedSets(JStr(s), loads) == Ok([])
  {
    StripUnchanged(s, PyWhitespace);
    var t := PyStrip(s);
    StripKeepsNoneOf(s, PyWhitespace, IsComma);
    StripKeepsNoneOf(s, PyWhitespace, IsDash);
    if t != "" {
      SplitNoSeparator(t, IsComma);
      StripKeepsNoneOf(t, PyWhitespace, IsDash);
      SplitNoSeparator(PyStrip(t), IsDash);
      assert ChunkPair(t) == None;
      CollectSingle(t, ChunkPair);
    }
  }

  lemma StripKeepsNoneOf(s: string, ws: char -> bool, sep: char -> bool)
    requires NoneOf(s, sep)
    ensures NoneOf(Strip(s, ws), sep)
  {
    var a := TrimStart(s, ws);
    var b := TrimEnd(a, ws);
    assert Strip(s, ws) == b;
    forall i | 0 <= i < |b| ensures !sep(b[i]) {
      assert b[i] == a[i] == s[|s| - |a| + i];
    }
  }

  /** The concrete case: `"abc"` gives `[]`. */
  lemma CoercedSetsOfGarbage(loads: string -> Option<Json>)
    requires loads("abc") == None
    ensures CoercedSets(JStr("abc"), loads) == Ok([])
  {
    CoercedSetsOfDashlessText("abc", loads);
  }

  // ---------------------------------------------------------------- _score_row_to_dict

  /** One stored pair as the response object `{"team": a, "opp": b}`. */
  function SetObject(p: SetPair): Json {
    JObj(map["team" := JInt(p.0), "opp" := JInt(p.1)])
  }

  /** `[{"team": pair[0], "opp": pair[1]} for pair in pairs]`. */
  function SetsResponse(ps: seq<SetPair>): (j: Json)
    ensures j.JArr? && |j.items| == |ps|
    ensures forall k :: 0 <= k < |ps| ==> j.items[k] == SetObject(ps[k])
  {
    JArr(seq(|ps|, k requires 0 <= k < |ps| => SetObject(ps[k])))
  }

  /** `_sets_for_response(value)`: the `sets` field `_score_row_to_dict` returns. */
  function SetsForResponse(value: Json, loads: string -> Option<Json>): Result<Json, PyError> {
    var c := CoercedSets(value, loads);
    if c.Err? then Err(c.error) else Ok(SetsResponse(c.value))
  }

  /** The response objects read back through `_coerce_sets` as the same pairs in the same order:
      `_score_row_to_dict` loses nothing of a stored line's sets. */
  lemma {:induction false} CoercedSetsOfResponse(ps: seq<SetPair>, loads: string -> Option<Json>)
    ensures CoercedSets(SetsResponse(ps), loads) == Ok(ps)
  {
    ItemsSetsOfResponse(ps);
  }

  lemma ItemsSetsOfResponse(ps: seq<SetPair>)
    ensures ItemsSets(SetsResponse(ps).items) == Ok(ps)
  {
    var items := SetsResponse(ps).items;
    forall k | 0 <= k < |items| ensures ItemPair(items[k]) == Ok(Some(ps[k])) {
      ItemPairOfSetObject(ps[k]);
    }
    ItemsSetsAll(items, ps);
  }

  /** A `{team, opp}` object reads back as its pair. */
  lemma ItemPairOfSetObject(p: SetPair)
    ensures ItemPair(SetObject(p)) == Ok(Some(p))
  {
    var d := map["team" := JInt(p.0), "opp" := JInt(p.1)];
    assert FirstPresent(d, "team", "team_score", "a") == JInt(p.0);
    assert FirstPresent(d, "opp", "opponent_score", "b") == JInt(p.1);
  }

  /** Stored sets (always `_coerce_sets` output) come back as `{team, opp}` objects, one per
      pair, in stored order. */
  lemma SetsForResponseOfStored(ps: seq<SetPair>, loads: string -> Option<Json>)
    ensures SetsForResponse(PairsJson(ps), loads) == Ok(SetsResponse(ps))
  {
    CoercedSetsOfPairs(ps, loads);
  }

  // ---------------------------------------------------------------- _coerce_current_game

  /** `[p for p in pieces if p.strip()]`. */
  function NonBlank(pieces: seq<string>): (r: seq<string>)
    ensures |r| <= |pieces|
    ensures forall k :: 0 <= k < |r| ==> r[k] in pieces && PyStrip(r[k]) != ""
    decreases |pieces|
  {
    if pieces == [] then []
    else
      var init := NonBlank(pieces[..|pieces| - 1]);
      var last := pieces[|pieces| - 1];
      init + (if PyStrip(last) != "" then [last] else [])
  }

  /** `[p for p in re.split(r"[^0-9]", text) if p.strip()]`: the maximal runs of digits. */
  function DigitRuns(text: string): (runs: seq<string>)
    ensures forall k :: 0 <= k < |runs| ==> runs[k] != "" && AllDigits(runs[k])
  {
    var pieces := Split(text, NotDigit);
    var runs := NonBlank(pieces);
    assert forall k :: 0 <= k < |runs| ==> runs[k] in pieces && PyStrip(runs[k]) != "";
    runs
  }

  /** The `except` branch of `_coerce_current_game`: the first two digit runs of the text, or
      `[0, 0]` with fewer than two. */
  function GameOfText(t: string): SetPair {
    var runs := DigitRuns(t);
    if |runs| >= 2 then
      var team := PyIntOfStr(runs[0]);
      var opp := PyIntOfStr(runs[1]);
      if team.Some? && opp.Some? then (team.value, opp.value) else (0, 0)
    else (0, 0)
  }

  /** `_coerce_current_game(value)`: the game score `[team, opp]`; `[0, 0]` when there is none. */
  function CoercedCurrentGame(value: Json, loads: string -> Option<Json>): Result<SetPair, PyError> {
    if value == JNull || value == JStr("") then Ok((0, 0))
    else if value.JStr? && PyStrip(value.s) == "" then Ok((0, 0))
    else if value.JStr? && loads(PyStrip(value.s)).None? then Ok(GameOfText(PyStrip(value.s)))
    else
      var data := if value.JStr? then loads(PyStrip(value.s)).value else value;
      match data
      case JObj(d) => PairOfDict(d)
      case JArr(xs) => if |xs| >= 2 then PairOfList(xs) else Ok((0, 0))
      case _ => Ok((0, 0))
  }

  /** A run of decimal digits always converts: the `except ValueError` of the text branch is
      never taken. */
  lemma PyIntOfDigits(ds: string)
    requires ds != [] && AllDigits(ds)
    ensures PyIntOfStr(ds) == Some(DigitsValue(ds))
  {
    assert IsDigit(ds[0]) && IsDigit(ds[|ds| - 1]);
    StripUnchanged(ds, PyWhitespace);
  }

  /** Non-JSON text gives its first two digit runs, or `[0, 0]` with fewer than two. */
  lemma CurrentGameOfText(text: string, loads: string -> Option<Json>)
    requires PyStrip(text) != "" && loads(PyStrip(text)) == None
    ensures var runs := DigitRuns(PyStrip(text));
            CoercedCurrentGame(JStr(text), loads)
            == if |runs| >= 2 then Ok((DigitsValue(runs[0]) as int, DigitsValue(runs[1]) as int))
               else Ok((0, 0))
  {
    assert text != "";
    assert CoercedCurrentGame(JStr(text), loads) == Ok(GameOfText(PyStrip(text)));
    GameOfRuns(PyStrip(text));
  }

  lemma GameOfRuns(t: string)
    ensures var runs := DigitRuns(t);
            GameOfText(t) == if |runs| >= 2 then (DigitsValue(runs[0]) as int, DigitsValue(runs[1]) as int)
                             else (0, 0)
  {
    var runs := DigitRuns(t);
    if |runs| >= 2 {
      PyIntOfDigits(runs[0]);
      PyIntOfDigits(runs[1]);
    }
  }

  /** Pieces that are all non-empty digit runs are kept as they are. */
  lemma {:induction false} NonBlankOfRuns(pieces: seq<string>)
    requires forall k :: 0 <= k < |pieces| ==> pieces[k] != "" && AllDigits(pieces[k])
    ensures NonBlank(pieces) == pieces
    decreases |pieces|
  {
    if pieces != [] {
      var init, last := pieces[..|pieces| - 1], pieces[|pieces| - 1];
      assert init + [last] == pieces;
      StripDigits(last);
      NonBlankOfRuns(init);
      assert NonBlank(pieces) == NonBlank(init) + [last];
    }
  }

  /** The digit runs of `a-b` (or `a:b`, or `a b`) are the two numerals. */
  lemma DigitRunsOfScore(a: nat, b: nat, c: char)
    requires !IsDigit(c)
    ensures DigitRuns(NatToString(a) + [c] + NatToString(b)) == [NatToString(a), NatToString(b)]
  {
    DigitRunsOfNumerals(NatToString(a), NatToString(b), c);
  }

  lemma DigitRunsOfNumerals(sa: string, sb: string, c: char)
    requires sa != [] && AllDigits(sa) && sb != [] && AllDigits(sb) && !IsDigit(c)
    ensures DigitRuns(sa + [c] + sb) == [sa, sb]
  {
    assert NoneOf(sa, NotDigit) && NoneOf(sb, NotDigit);
    SplitAfterPiece(sa, c, sb, NotDigit);
    SplitNoSeparator(sb, NotDigit);
    assert Split(sa + [c] + sb, NotDigit) == [sa, sb];
    NonBlankOfRuns([sa, sb]);
  }

  /** A game score written as text reads back: `"30-15"` gives `[30, 15]`. */
  lemma CurrentGameOfScoreText(a: nat, b: nat, c: char, loads: string -> Option<Json>)
    requires !IsDigit(c) && !PyWhitespace(c)
    requires loads(NatToString(a) + [c] + NatToString(b)) == None
    ensures CoercedCurrentGame(JStr(NatToString(a) + [c] + NatToString(b)), loads) == Ok((a, b))
  {
    var sa, sb := NatToString(a), NatToString(b);
    var t := sa + [c] + sb;
    assert t[0] == sa[0] && t[|t| - 1] == sb[|sb| - 1];
    StripUnchanged(t, PyWhitespace);
    DigitRunsOfScore(a, b, c);
    CurrentGameOfText(t, loads);
    NatToStringValue(a);
    NatToStringValue(b);
  }

  /** Text with fewer than two digit runs gives `[0, 0]`: `"7"` does. */
  lemma CurrentGameOfOneRun(n: nat, loads: string -> Option<Json>)
    requires loads(NatToString(n)) == None
    ensures CoercedCurrentGame(JStr(NatToString(n)), loads) == Ok((0, 0))
  {
    var s := NatToString(n);
    assert IsDigit(s[0]) && IsDigit(s[|s| - 1]);
    StripUnchanged(s, PyWhitespace);
    assert NoneOf(s, NotDigit);
    SplitNoSeparator(s, NotDigit);
    NonBlankOfRuns([s]);
    assert |DigitRuns(s)| == 1;
    CurrentGameOfText(s, loads);
  }

  /** A stored game score `[a, b]` reads back unchanged. */
  lemma CurrentGameOfPair(a: int, b: int, loads: string -> Option<Json>)
    ensures CoercedCurrentGame(JArr([JInt(a), JInt(b)]), loads) == Ok((a, b))
  {
  }

  /** An object game score is read under any of its three key spellings, `team`/`opp`,
      `team_score`/`opponent_score` or `a`/`b`; a side with no key reads as 0. */
  lemma CurrentGameKeyFallbacks(a: int, b: int, loads: string -> Option<Json>)
    ensures CoercedCurrentGame(JObj(map["team" := JInt(a), "opp" := JInt(b)]), loads) == Ok((a, b))
    ensures CoercedCurrentGame(JObj(map["team_score" := JInt(a), "opponent_score" := JInt(b)]), loads) == Ok((a, b))
    ensures CoercedCurrentGame(JObj(map["a" := JInt(a), "b" := JInt(b)]), loads) == Ok((a, b))
    ensures CoercedCurrentGame(JObj(map["team" := JInt(a)]), loads) == Ok((a, 0))
    ensures CoercedCurrentGame(JObj(map["b" := JInt(b)]), loads) == Ok((0, b))
    ensures CoercedCurrentGame(JObj(map[]), loads) == Ok((0, 0))
  {
  }

  /** The keys are tried in order and the first that is present and not null wins: `team` before
      `team_score` before `a`, and `opp` before `opponent_score` before `b`. */
  lemma CurrentGameKeyPrecedence(a: int, b: int, x: int, y: int, loads: string -> Option<Json>)
    ensures CoercedCurrentGame(JObj(map["team" := JInt(a), "team_score" := JInt(x), "a" := JInt(x),
                                        "opp" := JInt(b), "opponent_score" := JInt(y), "b" := JInt(y)]), loads)
            == Ok((a, b))
    ensures CoercedCurrentGame(JObj(map["team" := JNull, "team_score" := JInt(a), "a" := JInt(x),
                                        "opp" := JNull, "opponent_score" := JNull, "b" := JInt(b)]), loads)
            == Ok((a, b))
  {
  }

  // ---------------------------------------------------------------- _coerce_serve

  /** `_coerce_serve(value)`: who serves, 0 (team) or 1 (opponent), or an integer, or `None`. */
  function CoercedServe(value: Json): Option<int> {
    match value
    case JNull => None
    case JStr(s) => if s == "" then None else ServeOfKey(Lower(PyStrip(s)))
    case JBool(b) => Some(if b then 1 else 0)
    case JInt(i) => Some(i)
    case _ => None
  }

  /** The serve token table, applied to stripped, lower-cased text. */
  function ServeOfKey(text: string): Option<int> {
    if text in {"team", "player1", "0"} then Some(0)
    else if text in {"opponent", "player2", "1"} then Some(1)
    else PyIntOfStr(text)
  }

  lemma PyIntOfNegDigits(ds: string)
    requires ds != [] && AllDigits(ds)
    ensures PyIntOfStr("-" + ds) == Some(-(DigitsValue(ds) as int))
  {
    var s := "-" + ds;
    assert s[0] == '-' && s[1..] == ds;
    assert s[|s| - 1] == ds[|ds| - 1];
    StripUnchanged(s, PyWhitespace);
  }

  lemma PyIntOfNegNumeral(n: nat)
    requires n > 0
    ensures PyIntOfStr("-" + NatToString(n)) == Some(-(n as int))
  {
    PyIntOfNegDigits(NatToString(n));
    NatToStringValue(n);
  }

  lemma PyIntOfIntString(i: int)
    ensures PyIntOfStr(IntToString(i)) == Some(i)
  {
    var s := IntToString(i);
    if i < 0 {
      var n: nat := -i;
      assert s == "-" + NatToString(n);
      PyIntOfNegNumeral(n);
    } else {
      assert s == NatToString(i);
      NatToStringValue(i);
      PyIntOfDigits(s);
    }
  }

  lemma DigitsKey(ds: string)
    requires ds != [] && AllDigits(ds)
    ensures Lower(PyStrip(ds)) == ds
  {
    var a, z := ds[0] as int, ds[|ds| - 1] as int;
    assert 48 <= a <= 57 && 48 <= z <= 57;
    PyKeyUnchanged(ds);
  }

  lemma NegativeDigitsKey(ds: string)
    requires ds != [] && AllDigits(ds)
    ensures Lower(PyStrip(['-'] + ds)) == ['-'] + ds
  {
    var s := ['-'] + ds;
    var a, z := s[0] as int, ds[|ds| - 1] as int;
    assert s[|s| - 1] == ds[|ds| - 1];
    assert 45 <= a <= 57 && 48 <= z <= 57;
    PyKeyUnchanged(s);
  }

  /** A numeral, signed or not, is its own serve key. */
  lemma NumeralKey(i: int)
    ensures var s := IntToString(i); Lower(PyStrip(s)) == s && (s[0] == '-' || IsDigit(s[0]))
  {
    if i < 0 {
      NegativeNumeralKey(-i);
    } else {
      DigitsKey(NatToString(i));
    }
  }

  lemma NegativeNumeralKey(n: nat)
    requires n > 0
    ensures var s := IntToString(-(n as int)); Lower(PyStrip(s)) == s && s[0] == '-'
  {
    var ds := NatToString(n);
    assert IntToString(-(n as int)) == ['-'] + ds;
    NegativeDigitsKey(ds);
  }

  /** Only the numerals 0 and 1 are in the token table; any other numeral goes on to `int`. */
  lemma ServeOfNumeralKey(s: string)
    requires s != [] && (s[0] == '-' || IsDigit(s[0]))
    ensures ServeOfKey(s) == if s == "0" then Some(0) else if s == "1" then Some(1) else PyIntOfStr(s)
  {
    var c := s[0] as int;
    assert c == 45 || 48 <= c <= 57;
    assert s != "team" && s != "player1" && s != "opponent" && s != "player2";
  }

  /** Serve text that is a numeral reads as that number: `_coerce_serve(str(i)) == i`. */
  lemma CoercedServeOfNumeral(i: int)
    ensures CoercedServe(JStr(IntToString(i))) == Some(i)
  {
    NumeralKey(i);
    PyIntOfIntString(i);
    CoercedServeOfNumeralKey(IntToString(i), i);
  }

  lemma CoercedServeOfNumeralKey(s: string, i: int)
    requires s != [] && (s[0] == '-' || IsDigit(s[0]))
    requires Lower(PyStrip(s)) == s && PyIntOfStr(s) == Some(i)
    ensures CoercedServe(JStr(s)) == Some(i)
  {
    ServeOfNumeralKey(s);
    if s == "0" || s == "1" {
      PyIntOfDigits(s);
    }
  }

  /** Serve tokens are read regardless of letter case: `"Team"`, `"TEAM"` and `"team"` agree. */
  lemma CoercedServeCaseInsensitive(x: string, y: string)
    requires Upper(x) == Upper(y)
    ensures CoercedServe(JStr(x)) == CoercedServe(JStr(y))
  {
    PyKeyCaseInsensitive(x, y);
    assert |x| == |Upper(x)| && |y| == |Upper(y)|;
  }

  /** The side tokens name the two sides. */
  lemma CoercedServeOfToken(s: string)
    requires s in {"team", "player1", "opponent", "player2"}
    ensures CoercedServe(JStr(s)) == Some(if s in {"team", "player1"} then 0 else 1)
  {
    ServeTokenKey(s);
    ServeOfTokenKey(s);
  }

  lemma ServeTokenKey(s: string)
    requires s in {"team", "player1", "opponent", "player2"}
    ensures Lower(PyStrip(s)) == s
  {
    WordKey(s);
  }

  lemma ServeOfTokenKey(s: string)
    requires s in {"team", "player1", "opponent", "player2"} && Lower(PyStrip(s)) == s
    ensures CoercedServe(JStr(s)) == Some(if s in {"team", "player1"} then 0 else 1)
  {
  }

  /** A lower-case word is its own key under `strip().lower()`. */
  lemma WordKey(s: string)
    requires s != [] && forall k :: 0 <= k < |s| ==> 'a' <= s[k] <= 'z' || IsDigit(s[k])
    ensures Lower(PyStrip(s)) == s
  {
    var a, z := s[0] as int, s[|s| - 1] as int;
    assert 48 <= z <= 122 && 48 <= a <= 122;
    PyKeyUnchanged(s);
  }

  // ---------------------------------------------------------------- _coerce_winner

  /** `_coerce_winner(w)`: 0 for the team, 1 for the opponent, `None` when unfinished; an unknown
      token is refused with status 422. */
  function CoercedWinner(w: Option<string>): Result<Option<int>, int> {
    if w.None? then Ok(None) else WinnerOfKey(Lower(PyStrip(w.value)))
  }

  /** The winner token table, applied to stripped, lower-cased text. */
  function WinnerOfKey(s: string): Result<Option<int>, int> {
    if s in {"team", "home", "0"} then Ok(Some(0))
    else if s in {"opponent", "away", "1"} then Ok(Some(1))
    else if s in {"unfinished", "", "none", "null"} then Ok(None)
    else Err(422)
  }

  /** The token a line winner is written as. */
  function WinnerToken(v: Option<int>): string
    requires v.None? || v.value in {0, 1}
  {
    if v == Some(0) then "team" else if v == Some(1) then "opponent" else "unfinished"
  }

  /** The three tokens `CompleteScorePayload` admits map back to the winner they name, so
      `complete_score` never reaches the 422 of `_coerce_winner`. */
  lemma CoercedWinnerOfToken(v: Option<int>)
    requires v.None? || v.value in {0, 1}
    ensures CoercedWinner(Some(WinnerToken(v))) == Ok(v)
  {
    WinnerTokenKey(v);
    WinnerOfTokenKey(v);
  }

  lemma WinnerTokenKey(v: Option<int>)
    requires v.None? || v.value in {0, 1}
    ensures Lower(PyStrip(WinnerToken(v))) == WinnerToken(v)
  {
    WordKey(WinnerToken(v));
  }

  lemma WinnerOfTokenKey(v: Option<int>)
    requires v.None? || v.value in {0, 1}
    requires Lower(PyStrip(WinnerToken(v))) == WinnerToken(v)
    ensures CoercedWinner(Some(WinnerToken(v))) == Ok(v)
  {
  }

  /** Winner tokens are read regardless of letter case. */
  lemma CoercedWinnerCaseInsensitive(x: string, y: string)
    requires Upper(x) == Upper(y)
    ensures CoercedWinner(Some(x)) == CoercedWinner(Some(y))
  {
    PyKeyCaseInsensitive(x, y);
  }

  // ---------------------------------------------------------------- _looks_live

  /** `_looks_live(row)` for a row's status and started columns. */
  predicate LooksLive(status: Option<string>, started: Json) {
    var st := Lower(if status.None? then "" else status.value);
    (st in {"live", "in_progress", "in-progress"} || PyTruthy(started)) && st != "completed"
  }
}
